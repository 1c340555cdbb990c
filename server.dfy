/**
 * The chat server: User wraps one accepted TcpSocket with a display name and
 * a queue of chat events; Server accepts users, pumps each one, and writes
 * every event a user produces to every user in its list.
 *
 * As for sockets, value-level functions give the state each operation leaves
 * behind and the methods of the classes are proved to end in those states.
 * The environment of one server tick is one socket environment per user, in
 * the order of the user list.
 */
module Chat {
  import opened Wrappers
  import opened Sockets

  /** The fields of a User; `socket` is None when a failed accept left no socket. */
  datatype UserState = UserState(socket: Option<SocketState>, name: string, messages: seq<string>)

  function JoinText(name: string): string { name + " joined the chat room" }
  function ChatText(name: string, line: string): string { name + ": " + line }
  function TimeoutText(name: string): string { name + " timed out" }
  function LeaveText(name: string): string { name + " left the chat room" }

  /** User::hasName. */
  predicate Named(u: UserState) { u.name != "" }

  /** User::isConnected. */
  predicate Online(u: UserState) { u.socket.Some? && u.socket.value.connected }

  /** The state of a socket fresh from accept. */
  const AcceptedSocket: SocketState := SocketState(true, "", [], false, true, false, 0, [])

  /** A user created around a freshly accepted socket. */
  const NewUser: UserState := UserState(Some(AcceptedSocket), "", [])

  /** The user a failed accept adds: it holds no socket. */
  const NullUser: UserState := UserState(None, "", [])

  /** User::processMessage: the first non-empty line is the name, later ones are chat text. */
  function AfterMessage(u: UserState, line: string): UserState
  {
    if |line| == 0 then u
    else if !Named(u) then u.(name := line, messages := u.messages + [JoinText(line)])
    else u.(messages := u.messages + [ChatText(u.name, line)])
  }

  /** processMessage applied to the lines in order. */
  function AfterMessages(u: UserState, lines: seq<string>): UserState
    decreases |lines|
  {
    if lines == [] then u
    else AfterMessages(AfterMessage(u, lines[0]), lines[1..])
  }

  /**
   * User::process: pump the socket, turn every decoded line into events,
   * then, for a named user only, report a timeout (closing the socket) or a
   * lost connection.
   */
  function AfterUserProcess(u: UserState, env: Env, now: int): UserState
  {
    match u.socket
    case None => u
    case Some(s) =>
      var s1 := AfterProcess(s, env, now);
      var v := AfterMessages(u.(socket := Some(s1.(lines := []))), s1.lines);
      if !Named(v) then v
      else if TimedOut(s1, now) then
        v.(socket := Some(AfterClose(s1.(lines := []))), messages := v.messages + [TimeoutText(v.name)])
      else if !s1.connected then v.(messages := v.messages + [LeaveText(v.name)])
      else v
  }

  /** User::getMessage: the oldest event, or "" when there is none. */
  function AfterGetMessage(u: UserState): (string, UserState)
  {
    if |u.messages| > 0 then (u.messages[0], u.(messages := u.messages[1..])) else ("", u)
  }

  /** User::sendMessage. */
  function AfterSend(u: UserState, message: string, sendOk: bool): UserState
  {
    match u.socket
    case None => u
    case Some(s) => u.(socket := Some(AfterWriteLine(s, message, sendOk)))
  }

  /** sendMessage applied to the messages in order. */
  function AfterSends(u: UserState, messages: seq<string>, sendOk: bool): UserState
  {
    if messages == [] then u
    else AfterSend(AfterSends(u, messages[..|messages| - 1], sendOk), messages[|messages| - 1], sendOk)
  }

  /** Server::acceptUser: one new user per pending connection, at the end; a failed accept closes the listener. */
  function AfterAccept(listener: SocketState, users: seq<UserState>, pending: nat, acceptFails: bool)
    : (SocketState, seq<UserState>)
  {
    if !listener.valid then (listener, users)
    else if acceptFails then (AfterClose(listener), users + seq(pending, _ => NewUser) + [NullUser])
    else (listener, users + seq(pending, _ => NewUser))
  }

  /** Server::writeMessage: the message goes to every user in the list. */
  function WriteAll(users: seq<UserState>, envs: seq<Env>, message: string): (r: seq<UserState>)
    requires |envs| == |users|
    ensures |r| == |users|
  {
    seq(|users|, j requires 0 <= j < |users| => AfterSend(users[j], message, envs[j].sendOk))
  }

  /** Every user is written every event, in order. */
  function Fanout(users: seq<UserState>, envs: seq<Env>, events: seq<string>): (r: seq<UserState>)
    requires |envs| == |users|
    ensures |r| == |users|
  {
    seq(|users|, j requires 0 <= j < |users| => AfterSends(users[j], events, envs[j].sendOk))
  }

  /**
   * One iteration of Server::processUsers at index i: the user is pumped and
   * each of its events is written to every user in the list, itself
   * included. Reports the list afterwards and whether the user stays.
   */
  function Visit(users: seq<UserState>, envs: seq<Env>, i: nat, now: int): (r: (seq<UserState>, bool))
    requires |envs| == |users| && i < |users|
    ensures |r.0| == |users|
  {
    var u := AfterUserProcess(users[i], envs[i], now);
    var after := Fanout(users[i := u.(messages := [])], envs, u.messages);
    (after, Online(after[i]))
  }

  /**
   * What a pass of processUsers leaves behind: the final list of users and,
   * for each user visited, in visit order, whether it stayed in the list,
   * its state right after its visit (the last state an erased user is
   * ever in), and the events it produced and wrote to the list.
   */
  datatype PassResult = PassResult(remaining: seq<UserState>, kept: seq<bool>, visited: seq<UserState>, events: seq<seq<string>>)

  /** Server::processUsers from index i on. */
  function Sweep(users: seq<UserState>, envs: seq<Env>, i: nat, now: int): (r: PassResult)
    requires |envs| == |users| && i <= |users|
    ensures |r.kept| == |users| - i && |r.visited| == |users| - i && |r.events| == |users| - i
    decreases |users| - i
  {
    if i == |users| then PassResult(users, [], [], [])
    else
      var (after, keep) := Visit(users, envs, i, now);
      var rest :=
        if keep then Sweep(after, envs, i + 1, now)
        else Sweep(after[..i] + after[i + 1..], envs[..i] + envs[i + 1..], i, now);
      PassResult(rest.remaining, [keep] + rest.kept, [after[i]] + rest.visited,
                 [AfterUserProcess(users[i], envs[i], now).messages] + rest.events)
  }

  /** The elements of xs whose flag is set, in order. */
  function Select<T>(xs: seq<T>, flags: seq<bool>): seq<T>
    requires |flags| == |xs|
  {
    if xs == [] then []
    else Select(xs[..|xs| - 1], flags[..|xs| - 1]) + (if flags[|xs| - 1] then [xs[|xs| - 1]] else [])
  }

  /** processMessage looks only at the name and the queue, and leaves the socket alone. */
  lemma MessageOnFields(u: UserState, v: UserState, line: string)
    requires u.name == v.name && u.messages == v.messages
    ensures AfterMessage(u, line) == AfterMessage(v, line).(socket := u.socket)
  {
  }

  class User {
    var socket: TcpSocket?
    var name: string
    var messages: seq<string>

    function State(): UserState
      reads this, socket
    {
      UserState(if socket == null then None else Some(socket.State()), name, messages)
    }

    /** User(tcpSocket): no name yet and no events. */
    constructor (socket: TcpSocket?)
      ensures this.socket == socket && name == "" && messages == []
    {
      this.socket := socket;
      name := "";
      messages := [];
    }

    predicate IsConnected()
      reads this, socket
      ensures IsConnected() <==> Online(State())
    {
      socket != null && socket.IsConnected()
    }

    predicate HasName()
      reads this
    {
      name != ""
    }

    predicate HasMessage()
      reads this
    {
      |messages| > 0
    }

    /** getMessage: the oldest event, or "" when there is none. */
    method GetMessage() returns (message: string)
      modifies this
      ensures (message, State()) == AfterGetMessage(old(State()))
      ensures socket == old(socket)
    {
      message := "";
      if |messages| > 0 {
        message := messages[0];
        messages := messages[1..];
      }
    }

    /** sendMessage. */
    method SendMessage(message: string, sendOk: bool)
      modifies socket
      ensures State() == AfterSend(old(State()), message, sendOk)
    {
      if socket != null {
        socket.WriteLine(message, sendOk);
      }
    }

    /** processMessage. */
    method ProcessMessage(line: string)
      modifies this
      ensures State() == AfterMessage(old(State()), line)
      ensures socket == old(socket)
    {
      if |line| > 0 {
        if !HasName() {
          name := line;
          messages := messages + [JoinText(name)];
        } else {
          messages := messages + [ChatText(name, line)];
        }
      }
    }

    /** The drain loop of process: every decoded line goes through processMessage, oldest first. */
    method Drain()
      requires socket != null
      modifies this, socket
      ensures socket == old(socket) && socket.State() == old(socket.State()).(lines := [])
      ensures State() == AfterMessages(old(State()).(socket := Some(old(socket.State()).(lines := []))), old(socket.lines))
    {
      ghost var s0 := socket.State();
      ghost var drained := Some(s0.(lines := []));
      ghost var target := AfterMessages(UserState(drained, name, messages), s0.lines);
      while socket.HasLine()
        invariant socket == old(socket)
        invariant socket.State() == s0.(lines := socket.lines)
        invariant AfterMessages(UserState(drained, name, messages), socket.lines) == target
        decreases |socket.lines|
      {
        ghost var before := UserState(drained, name, messages);
        var line := socket.ReadLine();
        ghost var pre := State();
        ProcessMessage(line);
        MessageOnFields(before, pre, line);
      }
    }

    /** process: pump the socket, drain its lines, then report a timeout or a lost connection. */
    method Process(env: Env, now: int)
      modifies this, socket
      ensures State() == AfterUserProcess(old(State()), env, now)
      ensures socket == old(socket)
    {
      if socket != null {
        socket.Process(env, now);
        Drain();
        if HasName() {
          if socket.HasTimedOut(now) {
            messages := messages + [TimeoutText(name)];
            socket.Close();
          } else if !socket.IsConnected() {
            messages := messages + [LeaveText(name)];
          }
        }
      }
    }
  }

  /** The states of a list of users. */
  function StatesOf(us: seq<User>): (r: seq<UserState>)
    reads set u | u in us, set u | u in us :: u.socket
    ensures |r| == |us| && forall j :: 0 <= j < |us| ==> r[j] == us[j].State()
  {
    seq(|us|, j requires 0 <= j < |us| reads set u | u in us, set u | u in us :: u.socket => us[j].State())
  }

  /** The sockets the users of a list hold. */
  ghost function SocketsOf(us: seq<User>): set<TcpSocket?>
    reads set u | u in us
  {
    set u | u in us :: u.socket
  }

  /** A user erased from the list: it is not in the list, and no user of the list shares its socket. */
  ghost predicate Gone(g: User, us: seq<User>)
    reads g, set u | u in us
  {
    g !in us && (g.socket != null ==> g.socket !in SocketsOf(us))
  }

  /** The list with the queue of user i replaced. */
  function WithMessages(users: seq<UserState>, i: nat, messages: seq<string>): seq<UserState>
    requires i < |users|
  {
    users[i := users[i].(messages := messages)]
  }

  class Server {
    var listener: TcpSocket
    var users: seq<User>
    ghost var Repr: set<object>

    /** The users are distinct, hold distinct sockets, and none of them holds the listener. */
    ghost predicate Valid()
      reads this, Repr
    {
      && this in Repr && listener in Repr
      && (forall i :: 0 <= i < |users| ==> users[i] in Repr)
      && (forall i :: 0 <= i < |users| ==> users[i].socket != null ==> users[i].socket in Repr && users[i].socket != listener)
      && (forall i, j :: 0 <= i < j < |users| ==> users[i] != users[j])
      && (forall i, j :: 0 <= i < j < |users| && users[i].socket != null ==> users[i].socket != users[j].socket)
    }

    /** A server around a bound, listening socket, with no users yet. */
    constructor (listener: TcpSocket)
      ensures Valid() && fresh(Repr - {listener})
      ensures this.listener == listener && users == []
    {
      this.listener := listener;
      users := [];
      Repr := {this, listener};
    }

    /** acceptUser: accept every pending connection, in arrival order, each as a new unnamed user. */
    method AcceptUser(pending: nat, acceptFails: bool)
      requires Valid()
      modifies this, listener
      ensures Valid() && old(Repr) <= Repr && fresh(Repr - old(Repr)) && listener == old(listener)
      ensures (listener.State(), StatesOf(users))
        == AfterAccept(old(listener.State()), old(StatesOf(users)), pending, acceptFails)
      ensures old(users) <= users
    {
      var accepted := 0;
      while listener.valid && (accepted < pending || acceptFails)
        invariant Valid() && old(Repr) <= Repr && fresh(Repr - old(Repr)) && listener == old(listener)
        invariant old(users) <= users
        invariant accepted <= pending + 1 && (!old(listener.valid) ==> accepted == 0)
        invariant accepted <= pending ==>
          listener.State() == old(listener.State())
          && StatesOf(users) == old(StatesOf(users)) + seq(accepted, _ => NewUser)
        invariant accepted == pending + 1 ==>
          acceptFails && old(listener.valid) && listener.State() == AfterClose(old(listener.State()))
          && StatesOf(users) == old(StatesOf(users)) + seq(pending, _ => NewUser) + [NullUser]
        decreases pending + 1 - accepted
      {
        var peer := listener.Accept(accepted < pending);
        AddUser(peer);
        accepted := accepted + 1;
      }
      if !old(listener.valid) {
        assert old(StatesOf(users)) + seq(0, _ => NewUser) == old(StatesOf(users));
      }
    }

    /** Append a new unnamed user around the given socket, or around none when the accept failed. */
    method AddUser(peer: TcpSocket?)
      requires Valid() && (peer != null ==> peer !in Repr)
      modifies this
      ensures Valid() && old(Repr) <= Repr && fresh(Repr - old(Repr) - {peer}) && listener == old(listener)
      ensures |users| == |old(users)| + 1 && users == old(users) + [users[|old(users)|]]
      ensures StatesOf(users)
        == old(StatesOf(users)) + [UserState(if peer == null then None else Some(peer.State()), "", [])]
    {
      var user := new User(peer);
      users := users + [user];
      Repr := Repr + {user} + (if peer != null then {peer} else {});
    }

    /** writeMessage: write the message to every user in the list, the sender included. */
    method WriteMessage(message: string, envs: seq<Env>)
      requires Valid() && |envs| == |users|
      modifies SocketsOf(users)
      ensures StatesOf(users) == WriteAll(old(StatesOf(users)), envs, message)
    {
      ghost var S := StatesOf(users);
      ghost var W := WriteAll(S, envs, message);
      for j := 0 to |users|
        invariant forall k :: 0 <= k < |users| ==> users[k].State() == if k < j then W[k] else S[k]
      {
        users[j].SendMessage(message, envs[j].sendOk);
      }
    }

    /** user->process() for the user at index i; no other user changes. */
    method PumpUser(i: nat, env: Env, now: int)
      requires Valid() && i < |users|
      modifies users[i], users[i].socket
      ensures Valid() && SocketsOf(users) == old(SocketsOf(users))
      ensures StatesOf(users) == old(StatesOf(users))[i := AfterUserProcess(old(StatesOf(users))[i], env, now)]
    {
      users[i].Process(env, now);
    }

    /** user->getMessage() for the user at index i; no other user changes. */
    method TakeMessage(i: nat) returns (m: string)
      requires Valid() && i < |users| && users[i].messages != []
      modifies users[i]
      ensures Valid() && SocketsOf(users) == old(SocketsOf(users))
      ensures m == old(users[i].messages[0])
      ensures StatesOf(users) == WithMessages(old(StatesOf(users)), i, old(users[i].messages[1..]))
    {
      ghost var S := StatesOf(users);
      m := users[i].GetMessage();
      forall j | 0 <= j < |users|
        ensures StatesOf(users)[j] == WithMessages(S, i, S[i].messages[1..])[j]
      {
      }
    }

    /** Take the oldest event of the user at index i and write it to every user in the list. */
    method Relay(i: nat, envs: seq<Env>) returns (m: string)
      requires Valid() && |envs| == |users| && i < |users| && users[i].messages != []
      modifies users[i], SocketsOf(users)
      ensures Valid() && SocketsOf(users) == old(SocketsOf(users))
      ensures m == old(users[i].messages[0])
      ensures StatesOf(users) == WriteAll(WithMessages(old(StatesOf(users)), i, old(users[i].messages[1..])), envs, m)
    {
      m := TakeMessage(i);
      WriteMessage(m, envs);
    }

    /** Write every event of the user at index i, oldest first, to every user in the list, emptying its queue. */
    method Broadcast(i: nat, envs: seq<Env>)
      requires Valid() && |envs| == |users| && i < |users|
      modifies users[i], SocketsOf(users)
      ensures Valid() && SocketsOf(users) == old(SocketsOf(users))
      ensures StatesOf(users) == Fanout(WithMessages(old(StatesOf(users)), i, []), envs, old(users[i].messages))
    {
      ghost var events := users[i].messages;
      ghost var T := WithMessages(StatesOf(users), i, []);
      ghost var c := 0;
      assert StatesOf(users) == WithMessages(Fanout(T, envs, events[..c]), i, events[c..]);
      while users[i].HasMessage()
        invariant Valid() && SocketsOf(users) == old(SocketsOf(users))
        invariant c <= |events|
        invariant StatesOf(users) == WithMessages(Fanout(T, envs, events[..c]), i, events[c..])
        decreases |users[i].messages|
      {
        ghost var before := StatesOf(users);
        var m := Relay(i, envs);
        BroadcastStep(T, envs, events, c, i, before, StatesOf(users), m);
        c := c + 1;
      }
      assert events[..c] == events;
      DrainedFanout(T, envs, events, i);
    }

    /**
     * The body of the processUsers loop for the user at index i, up to the
     * erase decision. Reports whether the user is still connected.
     */
    method VisitUser(i: nat, envs: seq<Env>, now: int) returns (keep: bool)
      requires Valid() && |envs| == |users| && i < |users|
      modifies users[i], SocketsOf(users)
      ensures Valid() && SocketsOf(users) == old(SocketsOf(users))
      ensures (StatesOf(users), keep) == Visit(old(StatesOf(users)), envs, i, now)
    {
      ghost var S := StatesOf(users);
      ghost var u := AfterUserProcess(S[i], envs[i], now);
      PumpUser(i, envs[i], now);
      assert WithMessages(StatesOf(users), i, []) == S[i := u.(messages := [])];
      Broadcast(i, envs);
      keep := users[i].IsConnected();
    }

    /** users.erase(iter) at index i. */
    method Erase(i: nat)
      requires Valid() && i < |users|
      modifies this
      ensures Valid() && Repr == old(Repr) && listener == old(listener)
      ensures users == old(users[..i] + users[i + 1..])
      ensures StatesOf(users) == old(StatesOf(users)[..i] + StatesOf(users)[i + 1..])
      ensures (forall u :: u in users ==> u in old(users)) && SocketsOf(users) <= old(SocketsOf(users))
      ensures Gone(old(users[i]), users)
    {
      ghost var us := users;
      ghost var g := users[i];
      users := users[..i] + users[i + 1..];
      assert forall a :: 0 <= a < |users| ==> users[a] == us[if a < i then a else a + 1];
      assert forall a :: 0 <= a < |users| ==> users[a] != g && (g.socket != null ==> users[a].socket != g.socket);
    }

    /** One iteration of the processUsers loop: visit the user at index i, then erase it when it is no longer connected. */
    method Step(i: nat, es: seq<Env>, now: int, ghost olds: seq<User>, ghost kept: seq<bool>) returns (keep: bool, next: seq<Env>)
      requires Valid() && |es| == |users| && i < |users|
      requires |kept| <= |olds| && forall k :: 0 <= k < |kept| && !kept[k] ==> Gone(olds[k], users)
      modifies this, users[i], SocketsOf(users)
      ensures forall k :: 0 <= k < |kept| && !kept[k] ==> Gone(olds[k], users) && olds[k].State() == old(olds[k].State())
      ensures Valid() && Repr == old(Repr) && listener == old(listener) && listener.State() == old(listener.State())
      ensures (forall u :: u in users ==> u in old(users)) && SocketsOf(users) <= old(SocketsOf(users))
      ensures keep == Visit(old(StatesOf(users)), es, i, now).1
      ensures keep ==> users == old(users) && next == es && StatesOf(users) == Visit(old(StatesOf(users)), es, i, now).0
      ensures !keep ==>
        users == old(users[..i] + users[i + 1..]) && next == es[..i] + es[i + 1..]
        && StatesOf(users) == Visit(old(StatesOf(users)), es, i, now).0[..i] + Visit(old(StatesOf(users)), es, i, now).0[i + 1..]
        && Gone(old(users[i]), users) && old(users[i]).State() == Visit(old(StatesOf(users)), es, i, now).0[i]
    {
      keep := VisitUser(i, es, now);
      next := es;
      if !keep {
        Erase(i);
        next := es[..i] + es[i + 1..];
      }
    }

    /**
     * processUsers: visit the users in list order; a user that is no longer
     * connected after its visit is erased, and the one after it takes its
     * place. `kept` records, per user of the list at entry, whether it
     * stayed; an erased user is left in the state its visit gave it.
     */
    method ProcessUsers(envs: seq<Env>, now: int) returns (ghost kept: seq<bool>)
      requires Valid() && |envs| == |users|
      modifies Repr
      ensures Valid() && Repr == old(Repr) && listener == old(listener) && listener.State() == old(listener.State())
      ensures StatesOf(users) == Sweep(old(StatesOf(users)), envs, 0, now).remaining
      ensures kept == Sweep(old(StatesOf(users)), envs, 0, now).kept
      ensures |kept| == |old(users)| && users == Select(old(users), kept)
      ensures forall k :: 0 <= k < |old(users)| && !kept[k] ==>
        old(users)[k].State() == Sweep(old(StatesOf(users)), envs, 0, now).visited[k]
    {
      ghost var P := Sweep(StatesOf(users), envs, 0, now);
      ghost var olds := users;
      ghost var cur := StatesOf(users);
      var es := envs;
      kept := [];
      var i := 0;
      while i < |users|
        invariant Valid() && Repr == old(Repr) && listener == old(listener) && listener.State() == old(listener.State())
        invariant cur == StatesOf(users)
        invariant i <= |users| && |es| == |users|
        invariant SweepRest(P, cur, es, i, now, kept) && Listed(kept, olds, users, i)
        invariant forall k :: 0 <= k < |kept| && !kept[k] ==> Gone(olds[k], users) && olds[k].State() == P.visited[k]
        decreases |users| - i
      {
        ghost var us := users;
        ghost var es0 := es;
        ghost var cur0 := cur;
        var keep;
        keep, es := Step(i, es, now, olds, kept);
        cur := StatesOf(users);
        SweepRestStep(P, cur0, es0, i, now, kept, keep, es, cur);
        ListedStep(kept, olds, us, i, keep, users);
        forall k | 0 <= k < |kept| + 1 && !(kept + [keep])[k]
          ensures Gone(olds[k], users) && olds[k].State() == P.visited[k]
        {
          if k < |kept| {
            assert (kept + [keep])[k] == kept[k];
          }
        }
        if keep {
          i := i + 1;
        }
        kept := kept + [keep];
      }
      ProgressDone(P, cur, es, i, now, kept, olds, users);
    }

    /** One round of processNetwork: accept the pending connections, then process the users. */
    method Tick(pending: nat, acceptFails: bool, envs: seq<Env>, now: int) returns (ghost entered: seq<User>, ghost kept: seq<bool>)
      requires Valid()
      requires |envs| == |AfterAccept(listener.State(), StatesOf(users), pending, acceptFails).1|
      modifies Repr
      ensures Valid() && fresh(Repr - old(Repr)) && listener == old(listener)
      ensures var (l, us) := AfterAccept(old(listener.State()), old(StatesOf(users)), pending, acceptFails);
        && listener.State() == l && old(users) <= entered && |entered| == |us|
        && StatesOf(users) == Sweep(us, envs, 0, now).remaining && kept == Sweep(us, envs, 0, now).kept
        && users == Select(entered, kept)
        && forall k :: 0 <= k < |entered| && !kept[k] ==> entered[k].State() == Sweep(us, envs, 0, now).visited[k]
    {
      AcceptUser(pending, acceptFails);
      entered := users;
      kept := ProcessUsers(envs, now);
    }
  }

  /**
   * Server(port): bind a new socket to the port and listen on it; a failure
   * of either step is reported instead of a server.
   */
  method Host(port: nat, bindOk: bool, listenOk: bool, now: int) returns (server: Server?, r: Outcome<SocketError>)
    ensures bindOk && listenOk <==> server != null
    ensures server == null <==> r.Fail?
    ensures !bindOk ==> r == Fail(BindFailed(port))
    ensures bindOk && !listenOk ==> r == Fail(ListenFailed)
    ensures server != null ==>
      fresh(server.Repr) && server.Valid() && server.users == []
      && server.listener.State() == SocketState(true, "", [], true, false, false, now, [])
  {
    server := null;
    var listener := new TcpSocket(now);
    r := listener.Bind(port, bindOk);
    if r.Fail? {
      return;
    }
    r := listener.Listen(listenOk);
    if r.Fail? {
      return;
    }
    server := new Server(listener);
  }

  /** One step of Sweep at index i, as the processUsers loop takes it. */
  lemma SweepStep(users: seq<UserState>, envs: seq<Env>, i: nat, now: int)
    requires |envs| == |users| && i < |users|
    ensures var (after, keep) := Visit(users, envs, i, now);
      var rest :=
        if keep then Sweep(after, envs, i + 1, now)
        else Sweep(after[..i] + after[i + 1..], envs[..i] + envs[i + 1..], i, now);
      var r := Sweep(users, envs, i, now);
      && r.remaining == rest.remaining && r.kept == [keep] + rest.kept && r.visited == [after[i]] + rest.visited
      && r.events == [AfterUserProcess(users[i], envs[i], now).messages] + rest.events
  {
  }

  /** Selecting from one more element extends the selection by it when its flag is set. */
  lemma SelectStep<T>(xs: seq<T>, flags: seq<bool>, b: bool)
    requires |flags| < |xs|
    ensures Select(xs[..|flags| + 1], flags + [b]) == Select(xs[..|flags|], flags) + (if b then [xs[|flags|]] else [])
  {
    assert xs[..|flags| + 1][..|flags|] == xs[..|flags|];
    assert (flags + [b])[..|flags|] == flags;
  }

  /**
   * The part of the loop invariant of processUsers about values: the sweep
   * from index i finishes the pass, and `kept` holds the decisions taken so
   * far.
   */
  predicate SweepRest(P: PassResult, cur: seq<UserState>, es: seq<Env>, i: nat, now: int, kept: seq<bool>)
  {
    && i <= |cur| && |es| == |cur| && |kept| <= |P.visited|
    && P.remaining == Sweep(cur, es, i, now).remaining
    && P.kept == kept + Sweep(cur, es, i, now).kept
    && P.visited[|kept|..] == Sweep(cur, es, i, now).visited
  }

  /** The part about the list: the kept users, then the users not yet visited. */
  predicate Listed(kept: seq<bool>, olds: seq<User>, us: seq<User>, i: nat)
  {
    && |kept| <= |olds| && i <= |us|
    && us[..i] == Select(olds[..|kept|], kept)
    && us[i..] == olds[|kept|..]
  }

  /** One visit keeps the value part of the invariant; the visit gives the visited state the pass records. */
  lemma SweepRestStep(P: PassResult, cur: seq<UserState>, es: seq<Env>, i: nat, now: int, kept: seq<bool>,
                      keep: bool, es': seq<Env>, cur': seq<UserState>)
    requires SweepRest(P, cur, es, i, now, kept) && i < |cur|
    requires keep == Visit(cur, es, i, now).1
    requires keep ==> es' == es && cur' == Visit(cur, es, i, now).0
    requires !keep ==>
      es' == es[..i] + es[i + 1..] && cur' == Visit(cur, es, i, now).0[..i] + Visit(cur, es, i, now).0[i + 1..]
    ensures |kept| < |P.visited| && P.visited[|kept|] == Visit(cur, es, i, now).0[i]
    ensures SweepRest(P, cur', es', if keep then i + 1 else i, now, kept + [keep])
  {
    var V := Visit(cur, es, i, now);
    SweepStep(cur, es, i, now);
    var rest := Sweep(cur', es', if keep then i + 1 else i, now);
    assert P.kept == (kept + [keep]) + rest.kept;
    assert P.visited[|kept|..] == [V.0[i]] + rest.visited;
    assert P.visited[|kept| + 1..] == P.visited[|kept|..][1..];
  }

  /** One visit keeps the list part of the invariant; the user visited is the next one of the list at entry. */
  lemma ListedStep(kept: seq<bool>, olds: seq<User>, us: seq<User>, i: nat, keep: bool, us': seq<User>)
    requires Listed(kept, olds, us, i) && i < |us|
    requires keep ==> us' == us
    requires !keep ==> us' == us[..i] + us[i + 1..]
    ensures |kept| < |olds| && us[i] == olds[|kept|]
    ensures Listed(kept + [keep], olds, us', if keep then i + 1 else i)
  {
    assert us[i] == olds[|kept|] && us[i + 1..] == olds[|kept| + 1..] by {
      assert us[i + 1..] == us[i..][1..];
    }
    SelectStep(olds, kept, keep);
    if keep {
      assert us'[..i + 1] == us[..i] + [us[i]];
    } else {
      assert us'[..i] == us[..i];
      assert us'[i..] == us[i + 1..];
    }
  }

  /** When the loop of processUsers ends, every user has been decided. */
  lemma ProgressDone(P: PassResult, cur: seq<UserState>, es: seq<Env>, i: nat, now: int,
                     kept: seq<bool>, olds: seq<User>, us: seq<User>)
    requires SweepRest(P, cur, es, i, now, kept) && Listed(kept, olds, us, i) && i == |us| == |cur|
    ensures P.remaining == cur && P.kept == kept && |kept| == |olds| && us == Select(olds, kept)
  {
    assert |us[i..]| == 0;
    assert olds[..|kept|] == olds;
    assert us == us[..i];
    assert kept + [] == kept;
  }

  lemma {:induction false} SendsStep(u: UserState, events: seq<string>, e: string, sendOk: bool)
    ensures AfterSends(u, events + [e], sendOk) == AfterSend(AfterSends(u, events, sendOk), e, sendOk)
  {
    assert (events + [e])[..|events|] == events;
  }

  /** Writing never touches a user's name or event queue. */
  lemma {:induction false} SendsKeepQueue(u: UserState, events: seq<string>, sendOk: bool, q: seq<string>)
    ensures AfterSends(u, events, sendOk).name == u.name
    ensures AfterSends(u, events, sendOk).messages == u.messages
    ensures AfterSends(u.(messages := q), events, sendOk) == AfterSends(u, events, sendOk).(messages := q)
    decreases |events|
  {
    if events != [] {
      SendsKeepQueue(u, events[..|events| - 1], sendOk, q);
    }
  }

  /** Writing one more event to every user extends the fan-out by that event. */
  lemma FanoutStep(users: seq<UserState>, envs: seq<Env>, events: seq<string>, e: string, i: nat, rest: seq<string>)
    requires |envs| == |users| && i < |users|
    ensures WriteAll(WithMessages(Fanout(users, envs, events), i, rest), envs, e)
      == WithMessages(Fanout(users, envs, events + [e]), i, rest)
  {
    forall j | 0 <= j < |users|
      ensures WriteAll(WithMessages(Fanout(users, envs, events), i, rest), envs, e)[j]
        == WithMessages(Fanout(users, envs, events + [e]), i, rest)[j]
    {
      SendsStep(users[j], events, e, envs[j].sendOk);
      SendsKeepQueue(users[j], events + [e], envs[j].sendOk, rest);
    }
  }

  /** Relaying the oldest event left in the queue at index i extends the fan-out by that event. */
  lemma BroadcastStep(users: seq<UserState>, envs: seq<Env>, events: seq<string>, c: nat, i: nat,
                      before: seq<UserState>, after: seq<UserState>, m: string)
    requires |envs| == |users| && i < |users| && c <= |events|
    requires before == WithMessages(Fanout(users, envs, events[..c]), i, events[c..])
    requires before[i].messages != [] && m == before[i].messages[0]
    requires after == WriteAll(WithMessages(before, i, before[i].messages[1..]), envs, m)
    ensures c < |events|
    ensures after == WithMessages(Fanout(users, envs, events[..c + 1]), i, events[c + 1..])
  {
    assert before[i].messages == events[c..];
    assert WithMessages(before, i, before[i].messages[1..]) == WithMessages(Fanout(users, envs, events[..c]), i, events[c + 1..]);
    FanoutStep(users, envs, events[..c], m, i, events[c + 1..]);
    assert events[..c] + [m] == events[..c + 1];
  }

  /** With an empty queue at index i, the fan-out leaves it empty. */
  lemma DrainedFanout(users: seq<UserState>, envs: seq<Env>, events: seq<string>, i: nat)
    requires |envs| == |users| && i < |users| && users[i].messages == []
    ensures WithMessages(Fanout(users, envs, events), i, []) == Fanout(users, envs, events)
  {
    SendsKeepQueue(users[i], events, envs[i].sendOk, []);
  }
}
