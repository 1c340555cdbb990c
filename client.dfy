/**
 * The chat client: one TcpSocket connected to the server, a queue of lines
 * to show, and the `run` flag of its network loop. One iteration of that
 * loop is a tick; the loop itself, its thread, mutex and sleep are not
 * modelled.
 */
module ChatClient {
  import opened Wrappers
  import opened Text
  import opened Sockets

  const LostText: string := "Connection has been lost"
  const ClosedText: string := "The server has been closed"

  /** The fields of a Client. */
  datatype ClientState = ClientState(socket: SocketState, messages: seq<string>, run: bool)

  /**
   * One iteration of processNetwork: pump the socket, queue every non-empty
   * decoded line, then end the session on a timeout (closing the socket) or
   * on a lost connection, each with its own message. A client whose loop
   * has stopped does nothing.
   */
  function AfterTick(c: ClientState, env: Env, now: int): ClientState
  {
    if !c.run then c
    else
      var s1 := AfterProcess(c.socket, env, now);
      var queued := c.messages + NonEmpty(s1.lines);
      if TimedOut(s1, now) then ClientState(AfterClose(s1.(lines := [])), queued + [LostText], false)
      else if !s1.connected then ClientState(s1.(lines := []), queued + [ClosedText], false)
      else ClientState(s1.(lines := []), queued, true)
  }

  /** getMessage: the oldest queued line, or "" when there is none. */
  function AfterGetMessage(c: ClientState): (r: (string, ClientState))
    ensures |c.messages| > 0 ==> r.0 == c.messages[0] && r.1 == c.(messages := c.messages[1..])
    ensures |c.messages| == 0 ==> r == ("", c)
  {
    if |c.messages| > 0 then (c.messages[0], c.(messages := c.messages[1..])) else ("", c)
  }

  /** The sockets of a session: the handle is open exactly while the connection is up, and a stopped loop has no connection. */
  ghost predicate Session(c: ClientState)
  {
    c.socket.valid == c.socket.connected && (!c.run ==> !c.socket.valid)
  }

  /** Queuing the first line of a list, then the rest, queues the whole list. */
  lemma DrainStep(queued: seq<string>, lines: seq<string>)
    requires lines != []
    ensures (queued + NonEmpty([lines[0]])) + NonEmpty(lines[1..]) == queued + NonEmpty(lines)
  {
    assert lines == [lines[0]] + lines[1..];
    NonEmptyAppend([lines[0]], lines[1..]);
  }

  class Client {
    var socket: TcpSocket
    var messages: seq<string>
    var run: bool

    function State(): ClientState
      reads this, socket
    {
      ClientState(socket.State(), messages, run)
    }

    /**
     * The part of Client(name, address) after a successful connect: the
     * name goes out as the first line, then the loop is started.
     */
    constructor (socket: TcpSocket, name: string, sendOk: bool)
      modifies socket
      ensures this.socket == socket && messages == [] && run
      ensures socket.State() == AfterWriteLine(old(socket.State()), name, sendOk)
    {
      this.socket := socket;
      messages := [];
      run := false;
      new;
      socket.WriteLine(name, sendOk);
      run := true;
    }

    /** isClosed: the loop has stopped. */
    predicate IsClosed()
      reads this
      ensures IsClosed() <==> !State().run
    {
      !run
    }

    predicate HasMessage()
      reads this
      ensures HasMessage() <==> |State().messages| > 0
    {
      |messages| > 0
    }

    /** getMessage. */
    method GetMessage() returns (message: string)
      modifies this
      ensures (message, State()) == AfterGetMessage(old(State()))
      ensures socket == old(socket)
    {
      message := "";
      if |messages| > 0 {
        message := messages[0];
        messages := messages[1..];
      }
    }

    /** sendMessage: the line goes out through the socket. */
    method SendMessage(message: string, sendOk: bool)
      modifies socket
      ensures State() == old(State()).(socket := AfterWriteLine(old(socket.State()), message, sendOk))
    {
      socket.WriteLine(message, sendOk);
    }

    /** processMessage: a non-empty line is queued, an empty one dropped. */
    method ProcessMessage(line: string)
      modifies this
      ensures messages == old(messages) + NonEmpty([line])
      ensures socket == old(socket) && run == old(run)
    {
      if |line| > 0 {
        messages := messages + [line];
      }
    }

    /** Read every decoded line off the socket and process it, oldest first. */
    method Drain()
      modifies this, socket
      ensures socket == old(socket) && run == old(run)
      ensures messages == old(messages) + NonEmpty(old(socket.lines))
      ensures socket.State() == old(socket.State()).(lines := [])
    {
      ghost var target := messages + NonEmpty(socket.lines);
      while socket.HasLine()
        invariant socket == old(socket) && run == old(run)
        invariant socket.State() == old(socket.State()).(lines := socket.lines)
        invariant messages + NonEmpty(socket.lines) == target
        decreases |socket.lines|
      {
        ghost var ls := socket.lines;
        ghost var m0 := messages;
        var line := socket.ReadLine();
        ProcessMessage(line);
        DrainStep(m0, ls);
      }
      assert messages + [] == messages;
    }

    /** One iteration of processNetwork. */
    method Tick(env: Env, now: int)
      modifies this, socket
      ensures State() == AfterTick(old(State()), env, now)
      ensures socket == old(socket)
    {
      if run {
        socket.Process(env, now);
        Drain();
        if socket.HasTimedOut(now) {
          messages := messages + [LostText];
          socket.Close();
          run := false;
        } else if !socket.IsConnected() {
          messages := messages + [ClosedText];
          run := false;
        }
      }
    }
  }

  /**
   * Client(name, address): connect to the address, then write the name as
   * the first line and start the loop. A failed connect is reported instead
   * of a client; the socket is created with its clock at `now`.
   */
  method Open(name: string, address: string, now: int, literalOk: bool, connectOk: bool, sendOk: bool)
    returns (client: Client?, r: Outcome<SocketError>)
    ensures client != null <==> literalOk && connectOk
    ensures client == null <==> r.Fail?
    ensures !literalOk ==> r == Fail(InvalidAddress)
    ensures literalOk && !connectOk ==>
      r == Fail(ConnectFailed(TargetText(ConnectTarget(address).host, ConnectTarget(address).port)))
    ensures client != null ==>
      fresh(client) && fresh(client.socket) && client.messages == [] && client.run
      && client.socket.State() == AfterWriteLine(SocketState(true, "", [], false, true, false, now, []), name, sendOk)
  {
    client := null;
    var socket := new TcpSocket(now);
    r := socket.Connect(address, literalOk, connectOk);
    if r.Fail? {
      return;
    }
    client := new Client(socket, name, sendOk);
  }
}
