/**
 * TcpSocket: line framing over a byte stream, with an in-band heartbeat.
 *
 * The operating system is an environment. During one `process` call it
 * delivers a list of received chunks (each what one successful recv filled
 * into the zeroed buffer), says whether the receive loop ended with a failed
 * recv, and says whether the sends made during the call succeed. Time is an
 * integer number of milliseconds since the clock's epoch, passed in as
 * `now`; `sent` records every line handed successfully to send.
 *
 * The value-level functions below (AfterProcess, AfterWriteLine, ...) give
 * the state each operation leaves behind; the methods of class TcpSocket
 * carry out the same steps on fields and are proved to end in those states.
 */
module Sockets {
  import opened Wrappers
  import opened Text
  import Network

  /** The byte that starts a control line. */
  const Control: char := '\U{8}'
  /** The command byte of a ping. */
  const Ping: char := 'p'
  /** The command byte of an ack. */
  const Ack: char := 'a'
  /** A ping is sent once 0.1 s have passed since lastTime. */
  const PingInterval: int := 100
  /** A pending ping times out after 10 s. */
  const Timeout: int := 10000

  /** What the operating system does during one call: inbound chunks, a failed recv, sends that succeed. */
  datatype Env = Env(chunks: seq<string>, recvFailed: bool, sendOk: bool)

  /** The errors the setup operations throw. */
  datatype SocketError =
    | BindFailed(port: nat)
    | ListenFailed
    | InvalidAddress
    | ConnectFailed(target: string)

  /** The fields of a TcpSocket; `valid` stands for `socket != INVALID_SOCKET`. */
  datatype SocketState = SocketState(
    valid: bool,
    input: string,
    lines: seq<string>,
    bound: bool,
    connected: bool,
    pinged: bool,
    lastTime: int,
    sent: seq<string>)

  /** The line writeCmd builds: the control byte followed by the command byte. */
  function CommandText(cmd: char): string
  {
    [Control, cmd]
  }

  /** processCmd consumes a line when it is longer than one byte and starts with the control byte. */
  predicate IsCommand(line: string)
  {
    |line| > 1 && line[0] == Control
  }

  predicate IsAck(line: string)
  {
    IsCommand(line) && line[1] == Ack
  }

  predicate IsPing(line: string)
  {
    IsCommand(line) && line[1] == Ping
  }

  /** The input buffer after receiving the chunks: each chunk contributes its text up to its first NUL. */
  function Received(input: string, chunks: seq<string>): (r: string)
    ensures input <= r
  {
    if chunks == [] then input
    else Received(input, chunks[..|chunks| - 1]) + CString(chunks[|chunks| - 1])
  }

  /** The text before the first newline of a buffer, if it holds one. */
  function FirstLine(buffer: string): (r: Option<string>)
    ensures r.Some? ==> r.value + "\n" <= buffer && '\n' !in r.value
    ensures r.None? <==> '\n' !in buffer
  {
    match IndexOf(buffer, '\n')
    case None => None
    case Some(p) =>
      assert buffer[..p] + "\n" == buffer[..p + 1];
      Some(buffer[..p])
  }

  /** close(bool): the handle is released and every flag cleared; input and lines stay. */
  function AfterClose(s: SocketState): SocketState
  {
    s.(valid := false, pinged := false, bound := false, connected := false)
  }

  /** writeLine: send the line and a newline; a failed send closes the socket. */
  function AfterWriteLine(s: SocketState, line: string, sendOk: bool): SocketState
  {
    if !s.valid then s
    else if sendOk then s.(sent := s.sent + [line + "\n"])
    else AfterClose(s)
  }

  /** processCmd on a command line: a ping is answered with an ack, an ack clears the pending ping. */
  function AfterCommand(s: SocketState, line: string, sendOk: bool, now: int): SocketState
    requires IsCommand(line)
  {
    if line[1] == Ping then AfterWriteLine(s, CommandText(Ack), sendOk)
    else if line[1] == Ack then s.(lastTime := now, pinged := false)
    else s
  }

  /** processLine: a non-empty data line is queued. */
  function AfterDataLine(s: SocketState, line: string): SocketState
  {
    if |line| > 0 then s.(lines := s.lines + [line]) else s
  }

  /** The receive loop of process: the chunks are appended, and a failed recv closes the socket. */
  function AfterReceive(s: SocketState, env: Env): SocketState
  {
    var t := s.(input := Received(s.input, env.chunks));
    if env.recvFailed then AfterClose(t) else t
  }

  /** The framing step of process: at most one line is taken off the input and dispatched. */
  function AfterFrame(s: SocketState, sendOk: bool, now: int): SocketState
  {
    match FirstLine(s.input)
    case None => s
    case Some(line) =>
      var t := s.(input := s.input[|line| + 1..]);
      if IsCommand(line) then AfterCommand(t, line, sendOk, now) else AfterDataLine(t, line)
  }

  /** A ping is due on a connected socket with none pending once the interval has passed. */
  predicate HeartbeatDue(s: SocketState, now: int)
  {
    s.connected && now - s.lastTime >= PingInterval && !s.pinged
  }

  /** The heartbeat step of process: a due ping is sent, and the timeout window starts now. */
  function AfterHeartbeat(s: SocketState, sendOk: bool, now: int): SocketState
  {
    if HeartbeatDue(s, now) then
      AfterWriteLine(s, CommandText(Ping), sendOk).(lastTime := now, pinged := true)
    else s
  }

  /** process: receive, frame one line, heartbeat — all skipped when the handle is invalid. */
  function AfterProcess(s: SocketState, env: Env, now: int): SocketState
  {
    if !s.valid then s
    else AfterHeartbeat(AfterFrame(AfterReceive(s, env), env.sendOk, now), env.sendOk, now)
  }

  /** hasTimedOut. */
  predicate TimedOut(s: SocketState, now: int)
  {
    s.connected && s.pinged && now - s.lastTime >= Timeout
  }

  /** The host and port connect(address) uses: split at the first ':', the port read by atoi. */
  function ConnectTarget(address: string): (r: Network.Endpoint)
    ensures ':' !in r.host
    ensures r.port < 0x1_0000
  {
    match IndexOf(address, ':')
    case None => Network.Endpoint(address, Network.DefaultPort)
    case Some(p) => Network.Endpoint(address[..p], AtoiUShort(address[p + 1..]))
  }

  /** The "ip:port" text of the connect error message. */
  function TargetText(ipAddress: string, port: nat): string
  {
    ipAddress + ":" + Decimal(port)
  }

  class TcpSocket {
    var valid: bool
    var input: string
    var lines: seq<string>
    var bound: bool
    var connected: bool
    var pinged: bool
    var lastTime: int
    var sent: seq<string>

    function State(): SocketState
      reads this
    {
      SocketState(valid, input, lines, bound, connected, pinged, lastTime, sent)
    }

    /** TcpSocket(): a fresh, unbound, unconnected handle whose clock starts now. */
    constructor (now: int)
      ensures State() == SocketState(true, "", [], false, false, false, now, [])
    {
      valid, input, lines := true, "", [];
      bound, connected, pinged := false, false, false;
      lastTime, sent := now, [];
    }

    /** The socket accept returns: TcpSocket(Socket) then `connected = true`; its lastTime is the clock's epoch. */
    constructor Accepted()
      ensures State() == SocketState(true, "", [], false, true, false, 0, [])
    {
      valid, input, lines := true, "", [];
      bound, connected, pinged := false, true, false;
      lastTime, sent := 0, [];
    }

    predicate IsBound()
      reads this
    {
      bound
    }

    predicate IsConnected()
      reads this
    {
      connected
    }

    predicate HasLine()
      reads this
      ensures HasLine() <==> |lines| > 0
    {
      |lines| > 0
    }

    /** hasTimedOut: a ping is pending on a connected socket and 10 s have passed since lastTime. */
    predicate HasTimedOut(now: int)
      reads this
      ensures HasTimedOut(now) <==> TimedOut(State(), now)
    {
      connected && pinged && now - lastTime >= Timeout
    }

    /** bind: on a valid handle either marks it bound or closes it and fails. */
    method Bind(port: nat, bindOk: bool) returns (r: Outcome<SocketError>)
      modifies this
      ensures old(valid) && !bindOk ==> r == Fail(BindFailed(port)) && State() == AfterClose(old(State()))
      ensures old(valid) && bindOk ==> r == Pass && State() == old(State()).(bound := true)
      ensures !old(valid) ==> r == Pass && State() == old(State())
    {
      r := Pass;
      if valid {
        if !bindOk {
          Close();
          return Fail(BindFailed(port));
        }
        bound := true;
      }
    }

    /** listen: on a valid handle either succeeds without a change or closes it and fails. */
    method Listen(listenOk: bool) returns (r: Outcome<SocketError>)
      modifies this
      ensures old(valid) && !listenOk ==> r == Fail(ListenFailed) && State() == AfterClose(old(State()))
      ensures !(old(valid) && !listenOk) ==> r == Pass && State() == old(State())
    {
      r := Pass;
      if valid && !listenOk {
        Close();
        r := Fail(ListenFailed);
      }
    }

    /**
     * connect(ipAddress, port). `literalOk` is whether inet_pton accepts the
     * text as an IPv4 address, `connectOk` whether ::connect succeeds. A
     * rejected literal fails without closing; a failed connect closes.
     */
    method ConnectTo(ipAddress: string, port: nat, literalOk: bool, connectOk: bool) returns (r: Outcome<SocketError>)
      modifies this
      ensures old(valid) && !literalOk ==> r == Fail(InvalidAddress) && State() == old(State())
      ensures old(valid) && literalOk && !connectOk ==>
        r == Fail(ConnectFailed(TargetText(ipAddress, port))) && State() == AfterClose(old(State()))
      ensures old(valid) && literalOk && connectOk ==> r == Pass && State() == old(State()).(connected := true)
      ensures !old(valid) ==> r == Pass && State() == old(State())
    {
      r := Pass;
      if valid {
        if !literalOk {
          return Fail(InvalidAddress);
        }
        if !connectOk {
          Close();
          return Fail(ConnectFailed(TargetText(ipAddress, port)));
        }
        connected := true;
      }
    }

    /** connect(address): the address is split at its first ':' and handed to connect(ipAddress, port). */
    method Connect(address: string, literalOk: bool, connectOk: bool) returns (r: Outcome<SocketError>)
      modifies this
      ensures var t := ConnectTarget(address);
        && (old(valid) && !literalOk ==> r == Fail(InvalidAddress) && State() == old(State()))
        && (old(valid) && literalOk && !connectOk ==>
              r == Fail(ConnectFailed(TargetText(t.host, t.port))) && State() == AfterClose(old(State())))
        && (old(valid) && literalOk && connectOk ==> r == Pass && State() == old(State()).(connected := true))
        && (!old(valid) ==> r == Pass && State() == old(State()))
    {
      var ipAddress := address;
      var port := Network.DefaultPort;
      var position := IndexOf(address, ':');
      if position.Some? {
        ipAddress := address[..position.value];
        port := AtoiUShort(address[position.value + 1..]);
      }
      r := ConnectTo(ipAddress, port, literalOk, connectOk);
    }

    /**
     * accept: on a valid listening handle, a successful ::accept yields a
     * new connected socket; a failed one closes this socket and yields null.
     */
    method Accept(acceptOk: bool) returns (peer: TcpSocket?)
      modifies this
      ensures old(valid) && acceptOk ==>
        peer != null && fresh(peer) && peer.State() == SocketState(true, "", [], false, true, false, 0, [])
        && State() == old(State())
      ensures old(valid) && !acceptOk ==> peer == null && State() == AfterClose(old(State()))
      ensures !old(valid) ==> peer == null && State() == old(State())
    {
      peer := null;
      if valid {
        if acceptOk {
          peer := new TcpSocket.Accepted();
        } else {
          Close();
        }
      }
    }

    /** readLine: the oldest decoded line, or "" with nothing removed when there is none. */
    method ReadLine() returns (line: string)
      modifies this
      ensures old(|lines|) > 0 ==> line == old(lines[0]) && lines == old(lines[1..])
      ensures old(|lines|) == 0 ==> line == "" && lines == old(lines)
      ensures State() == old(State()).(lines := lines)
    {
      line := "";
      if |lines| > 0 {
        line := lines[0];
        lines := lines[1..];
      }
    }

    /** writeLine. */
    method WriteLine(line: string, sendOk: bool)
      modifies this
      ensures State() == AfterWriteLine(old(State()), line, sendOk)
    {
      if valid {
        if sendOk {
          sent := sent + [line + "\n"];
        } else {
          Close();
        }
      }
    }

    /** close(bool). */
    method Close()
      modifies this
      ensures State() == AfterClose(old(State()))
    {
      valid := false;
      pinged := false;
      bound := false;
      connected := false;
    }

    /** writeCmd. */
    method WriteCmd(cmd: char, sendOk: bool)
      modifies this
      ensures State() == AfterWriteLine(old(State()), CommandText(cmd), sendOk)
    {
      WriteLine([Control, cmd], sendOk);
    }

    /** processCmd: reports whether the line was a command, and acts on it if so. */
    method ProcessCmd(line: string, sendOk: bool, now: int) returns (isCmd: bool)
      modifies this
      ensures isCmd <==> IsCommand(line)
      ensures isCmd ==> State() == AfterCommand(old(State()), line, sendOk, now)
      ensures !isCmd ==> State() == old(State())
    {
      isCmd := false;
      if |line| > 1 {
        if line[0] == Control {
          var cmd := line[1];
          if cmd == Ping {
            WriteCmd(Ack, sendOk);
          } else if cmd == Ack {
            lastTime := now;
            pinged := false;
          }
          isCmd := true;
        }
      }
    }

    /** processLine. */
    method ProcessLine(line: string)
      modifies this
      ensures State() == AfterDataLine(old(State()), line)
    {
      if |line| > 0 {
        lines := lines + [line];
      }
    }

    /** The receive loop of process. */
    method Receive(env: Env)
      modifies this
      ensures State() == AfterReceive(old(State()), env)
    {
      var i := 0;
      while i < |env.chunks|
        invariant 0 <= i <= |env.chunks|
        invariant State() == old(State()).(input := Received(old(input), env.chunks[..i]))
      {
        assert env.chunks[..i + 1][..i] == env.chunks[..i];
        input := input + CString(env.chunks[i]);
        i := i + 1;
      }
      assert env.chunks[..i] == env.chunks;
      if env.recvFailed {
        Close();
      }
    }

    /** The framing step of process. */
    method FrameLine(sendOk: bool, now: int)
      modifies this
      ensures State() == AfterFrame(old(State()), sendOk, now)
    {
      var position := IndexOf(input, '\n');
      if position.Some? {
        var line := input[..position.value];
        input := input[position.value + 1..];
        var isCmd := ProcessCmd(line, sendOk, now);
        if !isCmd {
          ProcessLine(line);
        }
      }
    }

    /** The heartbeat step of process. */
    method Heartbeat(sendOk: bool, now: int)
      modifies this
      ensures State() == AfterHeartbeat(old(State()), sendOk, now)
    {
      if connected {
        if now - lastTime >= PingInterval && !pinged {
          WriteCmd(Ping, sendOk);
          lastTime := now;
          pinged := true;
        }
      }
    }

    /** process: drain the environment's chunks into input, take at most one line, then heartbeat. */
    method Process(env: Env, now: int)
      modifies this
      ensures State() == AfterProcess(old(State()), env, now)
    {
      if valid {
        Receive(env);
        FrameLine(env.sendOk, now);
        Heartbeat(env.sendOk, now);
      }
    }
  }
}
