/** What the framing and heartbeat of a TcpSocket guarantee. */
module SocketProperties {
  import opened Wrappers
  import opened Text
  import opened Sockets
  import Network

  /** The line a buffer starts with is the text before its first newline. */
  lemma FirstLineOf(line: string, rest: string)
    requires '\n' !in line
    ensures FirstLine(line + "\n" + rest) == Some(line)
  {
    var b := line + "\n" + rest;
    assert b[|line|] == '\n' && b[..|line|] == line;
    FirstIndex(b, '\n', |line|);
  }

  /**
   * One process call takes at most one line off the buffer: the text before
   * the first newline. The buffer keeps what follows that newline, and the
   * line is queued only when it is non-empty and not a command.
   */
  lemma {:induction false} ProcessTakesFirstLine(s: SocketState, env: Env, now: int, line: string, rest: string)
    requires s.valid
    requires Received(s.input, env.chunks) == line + "\n" + rest && '\n' !in line
    ensures AfterProcess(s, env, now).input == rest
    ensures AfterProcess(s, env, now).lines == s.lines + (if line == "" || IsCommand(line) then [] else [line])
  {
    var t := AfterReceive(s, env);
    assert t.input == line + "\n" + rest && t.lines == s.lines;
    FrameTakesFirstLine(t, env.sendOk, now, line, rest);
    var f := AfterFrame(t, env.sendOk, now);
    HeartbeatSendsPing(f, env.sendOk, now);
  }

  /** The framing step alone: the first line leaves the buffer and is dispatched. */
  lemma FrameTakesFirstLine(t: SocketState, sendOk: bool, now: int, line: string, rest: string)
    requires t.input == line + "\n" + rest && '\n' !in line
    ensures AfterFrame(t, sendOk, now).input == rest
    ensures AfterFrame(t, sendOk, now).lines == t.lines + (if line == "" || IsCommand(line) then [] else [line])
  {
    FirstLineOf(line, rest);
    assert t.input[|line| + 1..] == rest;
    var u := t.(input := rest);
    if IsCommand(line) {
      CommandNeverQueued(u, line, sendOk, now);
    }
  }

  /** Without a newline nothing is dispatched: the buffer only grows by what was received. */
  lemma ProcessWithoutNewline(s: SocketState, env: Env, now: int)
    requires s.valid
    requires '\n' !in Received(s.input, env.chunks)
    ensures AfterProcess(s, env, now).input == Received(s.input, env.chunks)
    ensures s.input <= AfterProcess(s, env, now).input
    ensures AfterProcess(s, env, now).lines == s.lines
  {
  }

  /** Nothing happens on a socket whose handle is invalid. */
  lemma ProcessWhenClosed(s: SocketState, env: Env, now: int)
    requires !s.valid
    ensures AfterProcess(s, env, now) == s
  {
  }

  /** A chunk with a NUL adds only what precedes the NUL; the rest of the chunk is lost. */
  lemma ChunkCutAtNul(input: string, before: string, after: string)
    requires '\0' !in before
    ensures Received(input, [before + "\0" + after]) == input + before
  {
    var c := before + "\0" + after;
    assert c[|before|] == '\0' && c[..|before|] == before;
    FirstIndex(c, '\0', |before|);
    assert [c][..0] == [];
  }

  /** The chunks joined into one text, in order. */
  function Joined(chunks: seq<string>): string
  {
    if chunks == [] then [] else Joined(chunks[..|chunks| - 1]) + chunks[|chunks| - 1]
  }

  /** Chunks without NUL bytes are appended to the buffer whole, in order. */
  lemma {:induction false} ReceivedWhole(input: string, chunks: seq<string>)
    requires forall i :: 0 <= i < |chunks| ==> '\0' !in chunks[i]
    ensures Received(input, chunks) == input + Joined(chunks)
  {
    if chunks != [] {
      var init := chunks[..|chunks| - 1];
      assert forall i :: 0 <= i < |init| ==> init[i] == chunks[i];
      ReceivedWhole(input, init);
    }
  }

  /**
   * A ping is answered with exactly one ack, and nothing reaches the line
   * queue. The ack does not touch the timer: pinged and lastTime end as the
   * heartbeat step alone leaves them.
   */
  lemma PingAnswered(s: SocketState, env: Env, now: int, rest: string)
    requires s.valid && !env.recvFailed && env.sendOk
    requires Received(s.input, env.chunks) == CommandText(Ping) + "\n" + rest
    ensures var r := AfterProcess(s, env, now);
      && r.lines == s.lines
      && r.input == rest
      && r.sent == s.sent + [CommandText(Ack) + "\n"] + (if HeartbeatDue(s, now) then [CommandText(Ping) + "\n"] else [])
      && r.pinged == (s.pinged || HeartbeatDue(s, now))
      && r.lastTime == (if HeartbeatDue(s, now) then now else s.lastTime)
  {
    var t := AfterReceive(s, env);
    FirstLineOf(CommandText(Ping), rest);
    var f := AfterFrame(t, env.sendOk, now);
    assert f == t.(input := rest, sent := s.sent + [CommandText(Ack) + "\n"]);
    assert HeartbeatDue(f, now) == HeartbeatDue(s, now);
  }

  /** Receiving an ack clears the pending ping and restarts the timer at now; nothing is sent. */
  lemma AckClearsPing(s: SocketState, env: Env, now: int, line: string, rest: string)
    requires s.valid && IsAck(line) && '\n' !in line
    requires Received(s.input, env.chunks) == line + "\n" + rest
    ensures var r := AfterProcess(s, env, now);
      !r.pinged && r.lastTime == now && r.sent == s.sent && r.lines == s.lines
  {
    var t := AfterReceive(s, env);
    FirstLineOf(line, rest);
    var f := AfterFrame(t, env.sendOk, now);
    assert f == t.(input := rest, lastTime := now, pinged := false);
    assert !HeartbeatDue(f, now);
  }

  /** A ping changes neither the timer nor, when the ack goes out, the pending flag. */
  lemma PingKeepsTimer(s: SocketState, line: string, sendOk: bool, now: int)
    requires IsPing(line)
    ensures AfterCommand(s, line, sendOk, now).lastTime == s.lastTime
    ensures sendOk || !s.valid ==> AfterCommand(s, line, sendOk, now).pinged == s.pinged
  {
  }

  /** Any line starting with the control byte and longer than one byte is swallowed, whatever its command. */
  lemma CommandNeverQueued(s: SocketState, line: string, sendOk: bool, now: int)
    requires IsCommand(line)
    ensures AfterCommand(s, line, sendOk, now).lines == s.lines
    ensures AfterCommand(s, line, sendOk, now).input == s.input
    ensures line[1] != Ping && line[1] != Ack ==> AfterCommand(s, line, sendOk, now) == s
  {
  }

  /** A lone control byte is data, not a command. */
  lemma LoneControlIsData(s: SocketState, env: Env, now: int)
    requires s.valid && Received(s.input, env.chunks) == [Control] + "\n"
    ensures AfterProcess(s, env, now).lines == s.lines + [[Control]]
  {
    ProcessTakesFirstLine(s, env, now, [Control], "");
    assert [Control] + "\n" + "" == [Control] + "\n";
  }

  /** The heartbeat sends one ping exactly when one is due and marks it pending; otherwise it does nothing. */
  lemma HeartbeatSendsPing(s: SocketState, sendOk: bool, now: int)
    ensures HeartbeatDue(s, now) ==>
      var r := AfterHeartbeat(s, sendOk, now);
      r.pinged && r.lastTime == now && r.lines == s.lines && r.input == s.input
      && r.sent == s.sent + (if s.valid && sendOk then [CommandText(Ping) + "\n"] else [])
    ensures !HeartbeatDue(s, now) ==> AfterHeartbeat(s, sendOk, now) == s
  {
  }

  /** The timeout window of a ping starts when the ping is sent, not at the last ack. */
  lemma TimeoutWindowStartsAtPing(s: SocketState, sendOk: bool, now: int, later: int)
    requires HeartbeatDue(s, now) && s.valid && sendOk
    ensures TimedOut(AfterHeartbeat(s, sendOk, now), later) <==> later - now >= Timeout
  {
  }

  /**
   * Once timed out, a socket stays timed out through every later process
   * call that neither decodes an ack nor loses the connection.
   */
  lemma TimeoutPersists(s: SocketState, env: Env, now: int, later: int)
    requires TimedOut(s, now) && now <= later
    requires s.valid && !env.recvFailed && env.sendOk
    requires var l := FirstLine(Received(s.input, env.chunks)); l.None? || !IsAck(l.value)
    ensures TimedOut(AfterProcess(s, env, later), later)
  {
  }

  /** Timing out needs a connection and a pending ping, and once reached it holds at every later time. */
  lemma TimedOutMonotone(s: SocketState, now: int, later: int)
    requires TimedOut(s, now) && now <= later
    ensures TimedOut(s, later) && s.connected && s.pinged
  {
  }

  /** close is idempotent and leaves the queued lines and the input buffer alone. */
  lemma CloseIdempotent(s: SocketState)
    ensures AfterClose(AfterClose(s)) == AfterClose(s)
    ensures var r := AfterClose(s);
      && !r.valid && !r.pinged && !r.bound && !r.connected
      && r.lines == s.lines && r.input == s.input && r.sent == s.sent
  {
  }

  /** A failed recv closes the socket, but what is already buffered is still framed in the same call. */
  lemma ReceiveFailureStillFrames(s: SocketState, env: Env, now: int, line: string, rest: string)
    requires s.valid && env.recvFailed
    requires Received(s.input, env.chunks) == line + "\n" + rest && '\n' !in line
    requires line != "" && !IsCommand(line)
    ensures var r := AfterProcess(s, env, now);
      r.lines == s.lines + [line] && !r.valid && !r.connected && r.sent == s.sent
  {
    ProcessTakesFirstLine(s, env, now, line, rest);
  }

  /**
   * Framing round trip: a non-empty text without newline or NUL that is not a
   * command, written on one socket and received by another with an empty
   * buffer, comes out as exactly that data line.
   */
  lemma WireRoundTrip(sender: SocketState, receiver: SocketState, text: string, now: int, sendOk: bool)
    requires sender.valid && receiver.valid && receiver.input == ""
    requires text != "" && '\n' !in text && '\0' !in text && !IsCommand(text)
    ensures var w := AfterWriteLine(sender, text, true);
      && |w.sent| == |sender.sent| + 1
      && var r := AfterProcess(receiver, Env([w.sent[|w.sent| - 1]], false, sendOk), now);
         r.lines == receiver.lines + [text] && r.input == ""
  {
    var wire := text + "\n";
    assert '\0' !in wire;
    ReceivedWhole("", [wire]);
    assert Joined([wire]) == wire by {
      assert [wire][..0] == [];
    }
    assert "" + Joined([wire]) == text + "\n" + "";
    ProcessTakesFirstLine(receiver, Env([wire], false, sendOk), now, text, "");
  }

  /**
   * Heartbeat exchange: a due ping from A reaches B, B answers with an ack,
   * and the ack reaching A clears A's pending ping; neither side queues a line.
   */
  lemma HeartbeatExchange(a: SocketState, b: SocketState, t0: int, t1: int, t2: int)
    requires a.valid && a.input == "" && HeartbeatDue(a, t0)
    requires b.valid && b.input == "" && t1 - b.lastTime < PingInterval
    ensures var a1 := AfterProcess(a, Env([], false, true), t0);
      && a1.pinged && a1.sent == a.sent + [CommandText(Ping) + "\n"]
      && var b1 := AfterProcess(b, Env([CommandText(Ping) + "\n"], false, true), t1);
      && b1.sent == b.sent + [CommandText(Ack) + "\n"] && b1.lines == b.lines
      && var a2 := AfterProcess(a1, Env([CommandText(Ack) + "\n"], false, true), t2);
      && !a2.pinged && a2.lastTime == t2 && a2.lines == a.lines && !TimedOut(a2, t2)
  {
    var ping := CommandText(Ping) + "\n";
    var ack := CommandText(Ack) + "\n";
    assert [ping][..0] == [] && [ack][..0] == [];
    assert '\0' !in ping && '\0' !in ack;
    assert Received("", [ping]) == CommandText(Ping) + "\n" + "";
    assert Received("", [ack]) == CommandText(Ack) + "\n" + "";
    PingAnswered(b, Env([ping], false, true), t1, "");
    var a1 := AfterProcess(a, Env([], false, true), t0);
    AckClearsPing(a1, Env([ack], false, true), t2, CommandText(Ack), "");
  }

  /** connect(address) splits at the first ':' and reads the port from what follows. */
  lemma ConnectSplitsAtFirstColon(address: string, p: nat)
    requires p < |address| && address[p] == ':' && ':' !in address[..p]
    ensures ConnectTarget(address) == Network.Endpoint(address[..p], AtoiUShort(address[p + 1..]))
  {
    FirstIndex(address, ':', p);
  }

  /** Without a ':' connect(address) uses the whole text and the default port. */
  lemma ConnectWithoutColon(address: string)
    requires ':' !in address
    ensures ConnectTarget(address) == Network.Endpoint(address, Network.DefaultPort)
  {
  }

  /** The "ip:port" text of a connect error splits back into the same ip and port. */
  lemma ConnectTargetRoundTrip(ipAddress: string, port: nat)
    requires ':' !in ipAddress && port < 0x1_0000
    ensures ConnectTarget(TargetText(ipAddress, port)) == Network.Endpoint(ipAddress, port)
  {
    var t := TargetText(ipAddress, port);
    assert t[|ipAddress|] == ':' && t[..|ipAddress|] == ipAddress;
    assert t[|ipAddress| + 1..] == Decimal(port);
    ConnectSplitsAtFirstColon(t, |ipAddress|);
    assert SkipSpace(Decimal(port)) == Decimal(port);
    LeadingDigitsOfDecimal(port, []);
    assert Decimal(port) + [] == Decimal(port);
    DecimalValue(port);
  }
}
