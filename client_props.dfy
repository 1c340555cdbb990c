/**
 * Properties of the client: the order of what a tick queues, the two ways a
 * session ends, and the session invariant that a stopped client has no
 * connection left to send on.
 */
module ClientProperties {
  import opened Wrappers
  import opened Text
  import opened Sockets
  import opened ChatClient

  /**
   * A tick queues the lines decoded in it, non-empty ones only and oldest
   * first, after what was already queued; at most one more message follows,
   * and it does exactly when the loop stops.
   */
  lemma TickOrder(c: ClientState, env: Env, now: int)
    requires c.run
    ensures var s1 := AfterProcess(c.socket, env, now);
      var r := AfterTick(c, env, now);
      var n := |c.messages| + |NonEmpty(s1.lines)|;
      && n <= |r.messages| <= n + 1
      && r.messages[..n] == c.messages + NonEmpty(s1.lines)
      && (|r.messages| == n + 1 <==> !r.run)
      && (!r.run ==> r.messages[n] == LostText || r.messages[n] == ClosedText)
  {
    var s1 := AfterProcess(c.socket, env, now);
    var queued := c.messages + NonEmpty(s1.lines);
    assert (queued + [LostText])[..|queued|] == queued;
    assert (queued + [ClosedText])[..|queued|] == queued;
  }

  /** A timeout wins over a lost connection: the socket is closed and the lost-connection message is queued. */
  lemma TimeoutWins(c: ClientState, env: Env, now: int)
    requires c.run && TimedOut(AfterProcess(c.socket, env, now), now)
    ensures var r := AfterTick(c, env, now);
      && !r.run && !r.socket.valid && !r.socket.connected
      && r.messages[|r.messages| - 1] == LostText
  {
  }

  /** A connection gone without a timeout ends the session with the server-closed message. */
  lemma ServerClosed(c: ClientState, env: Env, now: int)
    requires c.run
    requires !TimedOut(AfterProcess(c.socket, env, now), now) && !AfterProcess(c.socket, env, now).connected
    ensures var r := AfterTick(c, env, now);
      !r.run && r.messages[|r.messages| - 1] == ClosedText
  {
  }

  /** The session goes on exactly while the connection is up and has not timed out. */
  lemma RunsWhileConnected(c: ClientState, env: Env, now: int)
    requires c.run
    ensures var s1 := AfterProcess(c.socket, env, now);
      AfterTick(c, env, now).run <==> s1.connected && !TimedOut(s1, now)
  {
  }

  /** A stopped client is left as it is by every later tick. */
  lemma StoppedClientInert(c: ClientState, env: Env, now: int)
    requires !c.run
    ensures AfterTick(c, env, now) == c
  {
  }

  /** On a socket whose handle is open exactly while it is connected, writing keeps it so. */
  lemma WriteKeepsLink(s: SocketState, line: string, sendOk: bool)
    requires s.valid == s.connected
    ensures AfterWriteLine(s, line, sendOk).valid == AfterWriteLine(s, line, sendOk).connected
    ensures s.sent <= AfterWriteLine(s, line, sendOk).sent
  {
  }

  /** The framing step keeps that link invariant: only an ack it sends can close the socket. */
  lemma FrameKeepsLink(t: SocketState, sendOk: bool, now: int)
    requires t.valid == t.connected
    ensures AfterFrame(t, sendOk, now).valid == AfterFrame(t, sendOk, now).connected
    ensures t.sent <= AfterFrame(t, sendOk, now).sent
  {
    var first := FirstLine(t.input);
    if first.Some? && IsCommand(first.value) && first.value[1] == Ping {
      WriteKeepsLink(t.(input := t.input[|first.value| + 1..]), CommandText(Ack), sendOk);
    }
  }

  /** So does the heartbeat step: only the ping it sends can close the socket. */
  lemma HeartbeatKeepsLink(f: SocketState, sendOk: bool, now: int)
    requires f.valid == f.connected
    ensures AfterHeartbeat(f, sendOk, now).valid == AfterHeartbeat(f, sendOk, now).connected
    ensures f.sent <= AfterHeartbeat(f, sendOk, now).sent
  {
    if HeartbeatDue(f, now) {
      WriteKeepsLink(f, CommandText(Ping), sendOk);
    }
  }

  /** The same holds for process: every step that drops the connection closes the handle, and nothing is unsent. */
  lemma ProcessKeepsLink(s: SocketState, env: Env, now: int)
    requires s.valid == s.connected
    ensures AfterProcess(s, env, now).valid == AfterProcess(s, env, now).connected
    ensures s.sent <= AfterProcess(s, env, now).sent
  {
    if s.valid {
      var t := AfterReceive(s, env);
      FrameKeepsLink(t, env.sendOk, now);
      HeartbeatKeepsLink(AfterFrame(t, env.sendOk, now), env.sendOk, now);
    }
  }

  /** Every tick keeps the session invariant and never takes back a line already sent. */
  lemma TickKeepsSession(c: ClientState, env: Env, now: int)
    requires Session(c)
    ensures Session(AfterTick(c, env, now))
    ensures c.socket.sent <= AfterTick(c, env, now).socket.sent
  {
    ProcessKeepsLink(c.socket, env, now);
  }

  /** A successful Client(name, address) starts a session whose first and only line sent is the name. */
  lemma OpenStartsSession(name: string, now: int, sendOk: bool)
    ensures var s := AfterWriteLine(SocketState(true, "", [], false, true, false, now, []), name, sendOk);
      && Session(ClientState(s, [], true))
      && (sendOk ==> s.sent == [name + "\n"])
      && (!sendOk ==> s.sent == [] && !s.valid)
  {
  }

  /** A stopped client sends nothing: sendMessage leaves its socket as it is. */
  lemma StoppedSendsNothing(c: ClientState, message: string, sendOk: bool)
    requires Session(c) && !c.run
    ensures AfterWriteLine(c.socket, message, sendOk) == c.socket
  {
  }

  /** getMessage is first in, first out: a line queued behind others comes out after them, and at once on an empty queue. */
  lemma GetMessageFifo(c: ClientState, m: string)
    ensures c.messages != [] ==>
      var (first, rest) := AfterGetMessage(c);
      AfterGetMessage(c.(messages := c.messages + [m])) == (first, rest.(messages := rest.messages + [m]))
    ensures c.messages == [] ==> AfterGetMessage(c.(messages := c.messages + [m])).0 == m
  {
    if c.messages != [] {
      assert (c.messages + [m])[1..] == c.messages[1..] + [m];
    }
  }
}
