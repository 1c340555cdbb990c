/**
 * Properties of the chat rules: what a user's lines turn into, what one
 * User::process leaves behind, what acceptUser and writeMessage do to the
 * user list, and how one pass of processUsers fans the events out.
 */
module ChatProperties {
  import opened Wrappers
  import opened Text
  import opened Sockets
  import opened Chat

  /** The chat events of a named user for the given lines. */
  function ChatTexts(name: string, lines: seq<string>): (r: seq<string>)
    ensures |r| == |lines|
  {
    seq(|lines|, k requires 0 <= k < |lines| => ChatText(name, lines[k]))
  }

  /**
   * The events processMessage queues for the lines, from a reference
   * definition: a named user chats every non-empty line; an unnamed one
   * takes the first non-empty line as its name, announces it, and chats the
   * rest.
   */
  function LineEvents(u: UserState, lines: seq<string>): seq<string>
  {
    var ne := NonEmpty(lines);
    if Named(u) then ChatTexts(u.name, ne)
    else if ne == [] then []
    else [JoinText(ne[0])] + ChatTexts(ne[0], ne[1..])
  }

  /** The name a user has after processMessage on the lines. */
  function NameAfter(u: UserState, lines: seq<string>): string
  {
    var ne := NonEmpty(lines);
    if Named(u) || ne == [] then u.name else ne[0]
  }

  /** Each event written to a socket goes in as the event and a newline. */
  function Framed(events: seq<string>): (r: seq<string>)
    ensures |r| == |events|
  {
    seq(|events|, k requires 0 <= k < |events| => events[k] + "\n")
  }

  lemma ChatTextsAppend(name: string, a: seq<string>, b: seq<string>)
    ensures ChatTexts(name, a + b) == ChatTexts(name, a) + ChatTexts(name, b)
  {
  }

  /** A named user chats every non-empty line, in order; its name stays. */
  lemma {:induction false} NamedMessages(u: UserState, lines: seq<string>)
    requires Named(u)
    ensures AfterMessages(u, lines) == u.(messages := u.messages + ChatTexts(u.name, NonEmpty(lines)))
    decreases |lines|
  {
    if lines == [] {
      assert u.messages + [] == u.messages;
    } else {
      var v := AfterMessage(u, lines[0]);
      NamedMessages(v, lines[1..]);
      var head := if lines[0] != "" then [lines[0]] else [];
      ChatTextsAppend(u.name, head, NonEmpty(lines[1..]));
      assert v.messages == u.messages + ChatTexts(u.name, head);
    }
  }

  /**
   * The first non-empty line names an unnamed user and is announced with a
   * join event; the later non-empty lines are chat from that name. A user
   * that gets no non-empty line stays as it was.
   */
  lemma {:induction false} UnnamedMessages(u: UserState, lines: seq<string>)
    requires !Named(u)
    ensures var ne := NonEmpty(lines);
      && (ne == [] ==> AfterMessages(u, lines) == u)
      && (ne != [] ==>
            AfterMessages(u, lines)
              == u.(name := ne[0], messages := u.messages + [JoinText(ne[0])] + ChatTexts(ne[0], ne[1..])))
    decreases |lines|
  {
    if lines != [] {
      if lines[0] == "" {
        UnnamedMessages(u, lines[1..]);
      } else {
        var v := AfterMessage(u, lines[0]);
        NamedMessages(v, lines[1..]);
        assert NonEmpty(lines) == [lines[0]] + NonEmpty(lines[1..]);
      }
    }
  }

  /** processMessage on a list of lines, against the reference definition. */
  lemma MessagesEvents(u: UserState, lines: seq<string>)
    ensures AfterMessages(u, lines) == u.(name := NameAfter(u, lines), messages := u.messages + LineEvents(u, lines))
  {
    if Named(u) {
      NamedMessages(u, lines);
    } else {
      UnnamedMessages(u, lines);
      if NonEmpty(lines) == [] {
        assert u.messages + [] == u.messages;
      }
    }
  }

  /** Once set, the name never changes. */
  lemma NameNeverChanges(u: UserState, lines: seq<string>)
    requires Named(u)
    ensures AfterMessages(u, lines).name == u.name
  {
    NamedMessages(u, lines);
  }

  /** Empty lines produce nothing: only the non-empty lines matter. */
  lemma EmptyLinesIgnored(u: UserState, lines: seq<string>)
    ensures AfterMessages(u, lines) == AfterMessages(u, NonEmpty(lines))
  {
    MessagesEvents(u, lines);
    MessagesEvents(u, NonEmpty(lines));
    NonEmptyIdempotent(lines);
  }

  /**
   * User::process on a user holding a socket. The socket is pumped once and
   * all its decoded lines are drained into events, queued after the events
   * already waiting. Then a user that is still unnamed emits nothing more
   * and keeps its socket open; a named user that timed out gets a timeout
   * event and its socket closed; a named user whose connection is gone gets
   * a leave event; otherwise nothing is added.
   */
  lemma UserProcessOutcome(u: UserState, env: Env, now: int)
    requires u.socket.Some?
    ensures var s1 := AfterProcess(u.socket.value, env, now);
      var r := AfterUserProcess(u, env, now);
      var events := u.messages + LineEvents(u, s1.lines);
      && r.name == NameAfter(u, s1.lines)
      && r.socket.Some? && r.socket.value.lines == []
      && (!Named(r) ==> r.messages == u.messages && r.socket == Some(s1.(lines := [])))
      && (Named(r) && TimedOut(s1, now) ==>
            r.messages == events + [TimeoutText(r.name)] && r.socket == Some(AfterClose(s1.(lines := []))))
      && (Named(r) && !TimedOut(s1, now) && !s1.connected ==>
            r.messages == events + [LeaveText(r.name)] && r.socket == Some(s1.(lines := [])))
      && (Named(r) && !TimedOut(s1, now) && s1.connected ==>
            r.messages == events && r.socket == Some(s1.(lines := [])) && Online(r))
  {
    var s1 := AfterProcess(u.socket.value, env, now);
    MessagesEvents(u.(socket := Some(s1.(lines := []))), s1.lines);
    if !Named(AfterUserProcess(u, env, now)) {
      MessagesEvents(u, s1.lines);
      if Named(u) {
        NamedMessages(u, s1.lines);
      } else {
        UnnamedMessages(u, s1.lines);
      }
    }
  }

  /** A user that timed out is offline afterwards, and its timeout event is the last one queued. */
  lemma TimedOutUserLeavesOffline(u: UserState, env: Env, now: int)
    requires u.socket.Some?
    requires Named(AfterUserProcess(u, env, now)) && TimedOut(AfterProcess(u.socket.value, env, now), now)
    ensures var r := AfterUserProcess(u, env, now);
      !Online(r) && !r.socket.value.valid && r.messages[|r.messages| - 1] == TimeoutText(r.name)
  {
    UserProcessOutcome(u, env, now);
  }

  /** The user a failed accept leaves behind is never pumped and never online. */
  lemma NullUserInert(u: UserState, env: Env, now: int)
    requires u.socket.None?
    ensures AfterUserProcess(u, env, now) == u && !Online(u)
  {
  }

  /** getMessage is first in, first out: queuing at the back does not change what comes out next. */
  lemma GetMessageFifo(u: UserState, m: string)
    requires u.messages != []
    ensures var (first, rest) := AfterGetMessage(u);
      AfterGetMessage(u.(messages := u.messages + [m])) == (first, rest.(messages := rest.messages + [m]))
  {
    assert (u.messages + [m])[1..] == u.messages[1..] + [m];
  }

  /** getMessage on an empty queue returns "" and changes nothing. */
  lemma GetMessageEmpty(u: UserState)
    requires u.messages == []
    ensures AfterGetMessage(u) == ("", u)
  {
  }

  /**
   * acceptUser: the users already there keep their places; each pending
   * connection becomes a new unnamed user at the end, in arrival order; a
   * failed accept adds one user without a socket and closes the listener.
   */
  lemma AcceptAppends(listener: SocketState, users: seq<UserState>, pending: nat, acceptFails: bool)
    requires listener.valid
    ensures var (l, us) := AfterAccept(listener, users, pending, acceptFails);
      && us[..|users|] == users
      && |us| == |users| + pending + (if acceptFails then 1 else 0)
      && (forall k :: |users| <= k < |users| + pending ==> us[k] == NewUser)
      && (acceptFails <==> !l.valid)
      && (acceptFails ==> us[|us| - 1] == NullUser)
  {
    var (l, us) := AfterAccept(listener, users, pending, acceptFails);
    if acceptFails {
      assert us == (users + seq(pending, _ => NewUser)) + [NullUser];
    }
  }

  /** A closed listener accepts nobody. */
  lemma AcceptOnClosedListener(listener: SocketState, users: seq<UserState>, pending: nat, acceptFails: bool)
    requires !listener.valid
    ensures AfterAccept(listener, users, pending, acceptFails) == (listener, users)
  {
  }

  /** Writing a run of events to a live socket whose sends succeed records each of them, in order. */
  lemma {:induction false} SendsAppend(u: UserState, events: seq<string>, sendOk: bool)
    requires u.socket.Some? && u.socket.value.valid && sendOk
    ensures AfterSends(u, events, sendOk) == u.(socket := Some(u.socket.value.(sent := u.socket.value.sent + Framed(events))))
    decreases |events|
  {
    if events == [] {
      assert u.socket.value.sent + [] == u.socket.value.sent;
    } else {
      var front := events[..|events| - 1];
      SendsAppend(u, front, sendOk);
      var s := u.socket.value;
      assert Framed(events) == Framed(front) + [events[|events| - 1] + "\n"];
      assert (s.sent + Framed(front)) + [events[|events| - 1] + "\n"] == s.sent + Framed(events);
    }
  }

  /** Writing to a closed socket, or to a user without one, changes nothing. */
  lemma {:induction false} SendsToDead(u: UserState, events: seq<string>, sendOk: bool)
    requires u.socket.None? || !u.socket.value.valid
    ensures AfterSends(u, events, sendOk) == u
    decreases |events|
  {
    if events != [] {
      SendsToDead(u, events[..|events| - 1], sendOk);
    }
  }

  /** The first failed send closes the socket; nothing is recorded from then on. */
  lemma {:induction false} SendsFailing(u: UserState, events: seq<string>, sendOk: bool)
    requires u.socket.Some? && u.socket.value.valid && !sendOk && events != []
    ensures AfterSends(u, events, sendOk) == u.(socket := Some(AfterClose(u.socket.value)))
    decreases |events|
  {
    var front := events[..|events| - 1];
    if front != [] {
      SendsFailing(u, front, sendOk);
    }
  }

  /** writeMessage reaches every user in the list, whoever sent the message. */
  lemma WriteReachesEveryone(users: seq<UserState>, envs: seq<Env>, message: string, j: nat)
    requires |envs| == |users| && j < |users|
    requires users[j].socket.Some? && users[j].socket.value.valid && envs[j].sendOk
    ensures WriteAll(users, envs, message)[j].socket.value.sent == users[j].socket.value.sent + [message + "\n"]
    ensures WriteAll(users, envs, message)[j].name == users[j].name
    ensures WriteAll(users, envs, message)[j].messages == users[j].messages
  {
  }

  /**
   * One visit of processUsers at index i. The visited user is pumped, then
   * every event it produced is written, oldest first, to every user in the
   * list: to the others and to itself alike. Names and queues of the others
   * do not change, and the visited user's queue ends empty.
   */
  lemma VisitDelivers(users: seq<UserState>, envs: seq<Env>, i: nat, now: int, j: nat)
    requires |envs| == |users| && i < |users| && j < |users|
    ensures var u := AfterUserProcess(users[i], envs[i], now);
      var receiver := if j == i then u.(messages := []) else users[j];
      var after := Visit(users, envs, i, now).0;
      && after[j].name == receiver.name && after[j].messages == receiver.messages
      && (receiver.socket.Some? && receiver.socket.value.valid && envs[j].sendOk ==>
            after[j].socket == Some(receiver.socket.value.(sent := receiver.socket.value.sent + Framed(u.messages))))
      && (receiver.socket.None? || !receiver.socket.value.valid ==> after[j] == receiver)
  {
    var u := AfterUserProcess(users[i], envs[i], now);
    var receiver := if j == i then u.(messages := []) else users[j];
    SendsKeepQueue(receiver, u.messages, envs[j].sendOk, receiver.messages);
    if receiver.socket.Some? && receiver.socket.value.valid && envs[j].sendOk {
      SendsAppend(receiver, u.messages, envs[j].sendOk);
    }
    if receiver.socket.None? || !receiver.socket.value.valid {
      SendsToDead(receiver, u.messages, envs[j].sendOk);
    }
  }

  /** A user is kept after its visit exactly when it is still connected then. */
  lemma VisitKeepsOnline(users: seq<UserState>, envs: seq<Env>, i: nat, now: int)
    requires |envs| == |users| && i < |users|
    ensures var (after, keep) := Visit(users, envs, i, now);
      keep <==> Online(after[i])
  {
  }

  function CountTrue(flags: seq<bool>): (r: nat)
    ensures r <= |flags|
  {
    if flags == [] then 0 else (if flags[0] then 1 else 0) + CountTrue(flags[1..])
  }

  /**
   * processUsers from index i on decides once for every user from there
   * on: the final list holds the i users in front of index i and one entry
   * for every user that was kept.
   */
  lemma {:induction false} SweepLength(users: seq<UserState>, envs: seq<Env>, i: nat, now: int)
    requires |envs| == |users| && i <= |users|
    ensures |Sweep(users, envs, i, now).remaining| == i + CountTrue(Sweep(users, envs, i, now).kept)
    decreases |users| - i
  {
    if i < |users| {
      var (after, keep) := Visit(users, envs, i, now);
      var R := Sweep(users, envs, i, now);
      SweepStep(users, envs, i, now);
      if keep {
        SweepLength(after, envs, i + 1, now);
        LengthStep(R, Sweep(after, envs, i + 1, now), i, keep);
      } else {
        SweepLength(after[..i] + after[i + 1..], envs[..i] + envs[i + 1..], i, now);
        LengthStep(R, Sweep(after[..i] + after[i + 1..], envs[..i] + envs[i + 1..], i, now), i, keep);
      }
    }
  }

  /** One visit of SweepLength: a kept user moves the front by one, an erased one does not. */
  lemma LengthStep(R: PassResult, rest: PassResult, i: nat, keep: bool)
    requires R.remaining == rest.remaining && R.kept == [keep] + rest.kept
    requires |rest.remaining| == (if keep then i + 1 else i) + CountTrue(rest.kept)
    ensures |R.remaining| == i + CountTrue(R.kept)
  {
    assert R.kept[1..] == rest.kept;
  }

  /** A user without a socket, the leftover of a failed accept, is erased at its first visit. */
  lemma NullUserErased(users: seq<UserState>, envs: seq<Env>, i: nat, now: int)
    requires |envs| == |users| && i < |users| && users[i].socket.None?
    ensures Sweep(users, envs, i, now).kept[0] == false
  {
    var u := AfterUserProcess(users[i], envs[i], now);
    SendsToDead(u.(messages := []), u.messages, envs[i].sendOk);
  }

  /** Selecting keeps the order of the kept elements and drops the others. */
  lemma {:induction false} SelectCount<T>(xs: seq<T>, flags: seq<bool>)
    requires |flags| == |xs|
    ensures |Select(xs, flags)| == CountTrue(flags)
    ensures forall x :: x in Select(xs, flags) ==> x in xs
    decreases |xs|
  {
    if xs != [] {
      var n := |xs| - 1;
      SelectCount(xs[..n], flags[..n]);
      CountTrueSnoc(flags[..n], flags[n]);
      assert flags[..n] + [flags[n]] == flags;
    }
  }

  lemma {:induction false} CountTrueSnoc(flags: seq<bool>, b: bool)
    ensures CountTrue(flags + [b]) == CountTrue(flags) + (if b then 1 else 0)
    decreases |flags|
  {
    if flags != [] {
      assert (flags + [b])[1..] == flags[1..] + [b];
      CountTrueSnoc(flags[1..], b);
    }
  }

  /** The events of several users, one user after the other. */
  function Flatten(events: seq<seq<string>>): seq<string>
  {
    if events == [] then [] else events[0] + Flatten(events[1..])
  }

  /** The events of two runs of visits are those of the first run, then those of the second. */
  lemma {:induction false} FlattenAppend(a: seq<seq<string>>, b: seq<seq<string>>)
    ensures Flatten(a + b) == Flatten(a) + Flatten(b)
    decreases |a|
  {
    if a == [] {
      assert a + b == b;
    } else {
      FlattenAppend(a[1..], b);
      assert (a + b)[0] == a[0] && (a + b)[1..] == a[1..] + b;
    }
  }

  /** Writing two runs of events is writing them as one run. */
  lemma {:induction false} SendsCompose(u: UserState, a: seq<string>, b: seq<string>, sendOk: bool)
    ensures AfterSends(AfterSends(u, a, sendOk), b, sendOk) == AfterSends(u, a + b, sendOk)
    decreases |b|
  {
    if b == [] {
      assert a + b == a;
    } else {
      var n := |b| - 1;
      SendsCompose(u, a, b[..n], sendOk);
      assert (a + b)[..|a| + n] == a + b[..n];
      assert (a + b)[|a| + n] == b[n];
    }
  }

  /** Selecting from a list with one more element in front. */
  lemma {:induction false} SelectCons<T>(x: T, xs: seq<T>, b: bool, flags: seq<bool>)
    requires |flags| == |xs|
    ensures Select([x] + xs, [b] + flags) == (if b then [x] else []) + Select(xs, flags)
    decreases |xs|
  {
    if xs == [] {
      assert [x] + xs == [x] && [b] + flags == [b];
      assert Select([x][..0], [b][..0]) == [];
    } else {
      var n := |xs| - 1;
      SelectCons(x, xs[..n], b, flags[..n]);
      assert ([x] + xs)[..n + 1] == [x] + xs[..n];
      assert ([b] + flags)[..n + 1] == [b] + flags[..n];
    }
  }

  /** The state the user at position k from i is in when its turn comes: the earlier visits' events have been written to it. */
  function Seen(cur: seq<UserState>, es: seq<Env>, i: nat, t: nat, before: seq<seq<string>>): UserState
    requires |es| == |cur| && i + t < |cur|
  {
    AfterSends(cur[i + t], Flatten(before), es[i + t].sendOk)
  }

  /** What the visit of the t-th user from index i does, in terms of the events of the users visited before it. */
  predicate VisitedAs(cur: seq<UserState>, es: seq<Env>, i: nat, now: int, R: PassResult, t: nat)
    requires |es| == |cur| && i + t < |cur| && t < |R.events| && t < |R.visited| && t < |R.kept|
  {
    var u := AfterUserProcess(Seen(cur, es, i, t, R.events[..t]), es[i + t], now);
    && R.events[t] == u.messages
    && R.visited[t] == AfterSends(u.(messages := []), u.messages, es[i + t].sendOk)
    && R.kept[t] == Online(R.visited[t])
  }

  /** What one visit writes: the visited user gets its own events after its queue is emptied, every other user gets them as it is. */
  lemma VisitWrites(cur: seq<UserState>, es: seq<Env>, i: nat, now: int, j: nat)
    requires |es| == |cur| && i < |cur| && j < |cur|
    ensures var u := AfterUserProcess(cur[i], es[i], now);
      Visit(cur, es, i, now).0[j] == AfterSends(if j == i then u.(messages := []) else cur[j], u.messages, es[j].sendOk)
  {
  }

  /**
   * processUsers from index i on: every user visited has, when its turn
   * comes, been written exactly the events of the users visited before it,
   * in visit order; it is then pumped, its own events are written to it,
   * and it is kept exactly when it is still connected.
   */
  lemma {:induction false} PassVisits(cur: seq<UserState>, es: seq<Env>, i: nat, now: int)
    requires |es| == |cur| && i <= |cur|
    ensures forall t :: 0 <= t < |cur| - i ==> VisitedAs(cur, es, i, now, Sweep(cur, es, i, now), t)
    decreases |cur| - i
  {
    if i < |cur| {
      var (after, keep) := Visit(cur, es, i, now);
      var first := AfterUserProcess(cur[i], es[i], now).messages;
      var c' := if keep then after else after[..i] + after[i + 1..];
      var e' := if keep then es else es[..i] + es[i + 1..];
      var i' := if keep then i + 1 else i;
      PassVisits(c', e', i', now);
      SweepStep(cur, es, i, now);
      forall j | i <= j < |cur|
        ensures after[j] == AfterSends(if j == i then AfterUserProcess(cur[i], es[i], now).(messages := []) else cur[j], first, es[j].sendOk)
      {
        VisitWrites(cur, es, i, now, j);
      }
      VisitsFrom(cur, es, i, now, Sweep(cur, es, i, now), Sweep(c', e', i', now), c', e', i', after, keep, first);
    }
  }

  /** The induction step of PassVisits, with the visit at index i spelled out. */
  lemma VisitsFrom(cur: seq<UserState>, es: seq<Env>, i: nat, now: int, R: PassResult, rest: PassResult,
                   c': seq<UserState>, e': seq<Env>, i': nat, after: seq<UserState>, keep: bool, first: seq<string>)
    requires |es| == |cur| && i < |cur| && |after| == |cur|
    requires first == AfterUserProcess(cur[i], es[i], now).messages
    requires forall j :: i <= j < |cur| ==>
      after[j] == AfterSends(if j == i then AfterUserProcess(cur[i], es[i], now).(messages := []) else cur[j], first, es[j].sendOk)
    requires keep == Online(after[i])
    requires c' == (if keep then after else after[..i] + after[i + 1..])
    requires e' == (if keep then es else es[..i] + es[i + 1..])
    requires i' == (if keep then i + 1 else i)
    requires |R.kept| == |cur| - i && |R.visited| == |cur| - i && |R.events| == |cur| - i
    requires R.kept == [keep] + rest.kept && R.visited == [after[i]] + rest.visited && R.events == [first] + rest.events
    requires forall t :: 0 <= t < |c'| - i' ==> VisitedAs(c', e', i', now, rest, t)
    ensures forall t :: 0 <= t < |cur| - i ==> VisitedAs(cur, es, i, now, R, t)
  {
    forall t | 0 <= t < |cur| - i
      ensures VisitedAs(cur, es, i, now, R, t)
    {
      if t == 0 {
        assert R.events[..0] == [];
      } else {
        if keep {
          assert c'[i' + t - 1] == after[i + t];
        } else {
          assert c'[i' + t - 1] == after[i + t];
          assert e'[i' + t - 1] == es[i + t];
        }
        assert R.events[..t] == [first] + rest.events[..t - 1];
        LaterVisit(cur, es, i, now, R, rest, c', e', i', t, first);
      }
    }
  }

  /** The step of PassVisits for a user after the one visited first. */
  lemma LaterVisit(cur: seq<UserState>, es: seq<Env>, i: nat, now: int, R: PassResult, rest: PassResult,
                   c': seq<UserState>, e': seq<Env>, i': nat, t: nat, first: seq<string>)
    requires |es| == |cur| && 0 < t && i + t < |cur| && |e'| == |c'| && i' + t - 1 < |c'|
    requires c'[i' + t - 1] == AfterSends(cur[i + t], first, es[i + t].sendOk) && e'[i' + t - 1] == es[i + t]
    requires t < |R.kept| && t < |R.visited| && t < |R.events|
    requires t - 1 < |rest.kept| && t - 1 < |rest.visited| && t - 1 < |rest.events|
    requires R.kept[t] == rest.kept[t - 1] && R.visited[t] == rest.visited[t - 1] && R.events[t] == rest.events[t - 1]
    requires R.events[..t] == [first] + rest.events[..t - 1]
    requires VisitedAs(c', e', i', now, rest, t - 1)
    ensures VisitedAs(cur, es, i, now, R, t)
  {
    assert Flatten(R.events[..t]) == first + Flatten(rest.events[..t - 1]);
    SendsCompose(cur[i + t], first, Flatten(rest.events[..t - 1]), es[i + t].sendOk);
    assert Seen(cur, es, i, t, R.events[..t]) == Seen(c', e', i', t - 1, rest.events[..t - 1]);
  }

  /** The first n users of a list, each written the same run of events. */
  function WrittenTo(cur: seq<UserState>, es: seq<Env>, n: nat, written: seq<string>): (r: seq<UserState>)
    requires |es| == |cur| && n <= |cur|
    ensures |r| == n
  {
    seq(n, p requires 0 <= p < n => AfterSends(cur[p], written, es[p].sendOk))
  }

  /** The state a user ends the pass in once it was visited at position t: the events of the later visits are written to it. */
  function Finished(cur: seq<UserState>, es: seq<Env>, i: nat, now: int, R: PassResult): (r: seq<UserState>)
    requires |es| == |cur| && i <= |cur| && |R.visited| == |cur| - i && |R.events| == |cur| - i
    ensures |r| == |cur| - i
  {
    seq(|cur| - i, t requires 0 <= t < |cur| - i => AfterSends(R.visited[t], Flatten(R.events[t + 1..]), es[i + t].sendOk))
  }

  /**
   * processUsers from index i on: the final list holds the users in front
   * of index i with every event of the pass written to them, then each
   * kept user, in order, in its state after its visit with the events of
   * every later visit written to it.
   */
  lemma {:induction false} PassRemaining(cur: seq<UserState>, es: seq<Env>, i: nat, now: int)
    requires |es| == |cur| && i <= |cur|
    ensures var R := Sweep(cur, es, i, now);
      R.remaining
        == WrittenTo(cur, es, i, Flatten(R.events))
           + Select(Finished(cur, es, i, now, R), R.kept)
    decreases |cur| - i
  {
    var R := Sweep(cur, es, i, now);
    if i == |cur| {
      assert Finished(cur, es, i, now, R) == [];
      assert WrittenTo(cur, es, i, Flatten(R.events)) == cur;
    } else {
      var (after, keep) := Visit(cur, es, i, now);
      var c' := if keep then after else after[..i] + after[i + 1..];
      var e' := if keep then es else es[..i] + es[i + 1..];
      var i' := if keep then i + 1 else i;
      PassRemaining(c', e', i', now);
      SweepStep(cur, es, i, now);
      var first := AfterUserProcess(cur[i], es[i], now).messages;
      forall j | 0 <= j < |cur| && j != i
        ensures after[j] == AfterSends(cur[j], first, es[j].sendOk)
      {
        VisitWrites(cur, es, i, now, j);
      }
      RemainingStep(cur, es, i, now, R, Sweep(c', e', i', now), c', e', i', after, keep, first);
    }
  }

  /** The induction step of PassRemaining, with the visit at index i spelled out. */
  lemma RemainingStep(cur: seq<UserState>, es: seq<Env>, i: nat, now: int, R: PassResult, rest: PassResult,
                      c': seq<UserState>, e': seq<Env>, i': nat, after: seq<UserState>, keep: bool, first: seq<string>)
    requires |es| == |cur| && i < |cur| && |after| == |cur|
    requires forall j :: 0 <= j < |cur| && j != i ==> after[j] == AfterSends(cur[j], first, es[j].sendOk)
    requires c' == (if keep then after else after[..i] + after[i + 1..])
    requires e' == (if keep then es else es[..i] + es[i + 1..])
    requires i' == (if keep then i + 1 else i)
    requires |R.kept| == |cur| - i && |R.visited| == |cur| - i && |R.events| == |cur| - i
    requires R.remaining == rest.remaining && R.kept == [keep] + rest.kept
    requires R.visited == [after[i]] + rest.visited && R.events == [first] + rest.events
    requires rest.remaining
      == WrittenTo(c', e', i', Flatten(rest.events))
         + Select(Finished(c', e', i', now, rest), rest.kept)
    ensures R.remaining
      == WrittenTo(cur, es, i, Flatten(R.events))
         + Select(Finished(cur, es, i, now, R), R.kept)
  {
    var later := Flatten(rest.events);
    assert Flatten(R.events) == first + later;
    var x := AfterSends(after[i], later, es[i].sendOk);
    var head := if keep then [x] else [];
    var pre := WrittenTo(cur, es, i, Flatten(R.events));
    var pre' := WrittenTo(c', e', i', later);
    var F' := Finished(c', e', i', now, rest);
    PrefixWritten(cur, es, i, c', e', i', after, keep, first, later);
    assert pre' == pre + head;
    assert R.visited[1..] == rest.visited && R.events[1..] == rest.events && R.visited[0] == after[i];
    FinishedCons(cur, es, i, now, R, rest, c', e', i', keep, x);
    SelectCons(x, F', keep, rest.kept);
    assert Select(Finished(cur, es, i, now, R), R.kept) == head + Select(F', rest.kept);
    Regroup(pre, head, Select(F', rest.kept));
  }

  lemma Regroup<T>(a: seq<T>, b: seq<T>, c: seq<T>)
    ensures (a + b) + c == a + (b + c)
  {
  }

  /** The users in front of the visit get the visited user's events before the later ones. */
  lemma PrefixWritten(cur: seq<UserState>, es: seq<Env>, i: nat, c': seq<UserState>, e': seq<Env>, i': nat,
                      after: seq<UserState>, keep: bool, first: seq<string>, later: seq<string>)
    requires |es| == |cur| && i < |cur| && |after| == |cur|
    requires forall j :: 0 <= j < |cur| && j != i ==> after[j] == AfterSends(cur[j], first, es[j].sendOk)
    requires c' == (if keep then after else after[..i] + after[i + 1..])
    requires e' == (if keep then es else es[..i] + es[i + 1..])
    requires i' == (if keep then i + 1 else i)
    ensures WrittenTo(c', e', i', later)
      == WrittenTo(cur, es, i, first + later)
         + (if keep then [AfterSends(after[i], later, es[i].sendOk)] else [])
  {
    var pre := WrittenTo(cur, es, i, first + later);
    var pre' := WrittenTo(c', e', i', later);
    forall p | 0 <= p < i
      ensures pre'[p] == pre[p]
    {
      assert c'[p] == after[p] && e'[p] == es[p];
      SendsCompose(cur[p], first, later, es[p].sendOk);
    }
    if keep {
      assert pre' == pre + [AfterSends(after[i], later, es[i].sendOk)];
    } else {
      assert pre' == pre;
    }
  }

  /** The finished states from index i are the visited user's, then those of the rest of the pass. */
  lemma FinishedCons(cur: seq<UserState>, es: seq<Env>, i: nat, now: int, R: PassResult, rest: PassResult,
                     c': seq<UserState>, e': seq<Env>, i': nat, keep: bool, x: UserState)
    requires |es| == |cur| && i < |cur|
    requires |c'| == |cur| - (if keep then 0 else 1)
    requires e' == (if keep then es else es[..i] + es[i + 1..])
    requires i' == (if keep then i + 1 else i)
    requires |R.visited| == |cur| - i && |R.events| == |cur| - i
    requires R.visited[1..] == rest.visited && R.events[1..] == rest.events
    requires x == AfterSends(R.visited[0], Flatten(rest.events), es[i].sendOk)
    ensures Finished(cur, es, i, now, R) == [x] + Finished(c', e', i', now, rest)
  {
    var F := Finished(cur, es, i, now, R);
    var F' := Finished(c', e', i', now, rest);
    forall t | 0 <= t < |F'|
      ensures F[t + 1] == F'[t]
    {
      assert R.events[t + 2..] == rest.events[t + 1..];
      assert R.visited[t + 1] == rest.visited[t];
      if keep {
        assert e'[i' + t] == es[i + t + 1];
      } else {
        assert e'[i' + t] == (es[i + 1..])[t];
      }
      assert F[t + 1] == AfterSends(R.visited[t + 1], Flatten(R.events[t + 2..]), es[i + t + 1].sendOk);
    }
    assert F[0] == x;
    assert F == [x] + F';
  }

  /**
   * A whole pass of processUsers: the final list holds the kept users, in
   * their order, each in its state after its visit with the events of every
   * later visit written to it.
   */
  lemma PassFromStart(users: seq<UserState>, envs: seq<Env>, now: int)
    requires |envs| == |users|
    ensures var R := Sweep(users, envs, 0, now);
      R.remaining == Select(Finished(users, envs, 0, now, R), R.kept)
  {
    var R := Sweep(users, envs, 0, now);
    PassRemaining(users, envs, 0, now);
    assert WrittenTo(users, envs, 0, Flatten(R.events)) == [];
  }

  /**
   * Over a whole pass, the user at position t is written the events of the
   * users visited before it, is pumped, and is then written its own events
   * and those of every later visit, in visit order.
   */
  lemma FinishedState(users: seq<UserState>, envs: seq<Env>, now: int, t: nat)
    requires |envs| == |users| && t < |users|
    ensures var R := Sweep(users, envs, 0, now);
      var u := AfterUserProcess(AfterSends(users[t], Flatten(R.events[..t]), envs[t].sendOk), envs[t], now);
      Finished(users, envs, 0, now, R)[t] == AfterSends(u.(messages := []), Flatten(R.events[t..]), envs[t].sendOk)
  {
    var R := Sweep(users, envs, 0, now);
    PassVisits(users, envs, 0, now);
    assert VisitedAs(users, envs, 0, now, R, t);
    var u := AfterUserProcess(Seen(users, envs, 0, t, R.events[..t]), envs[t], now);
    assert R.events[t..][1..] == R.events[t + 1..];
    SendsCompose(u.(messages := []), R.events[t], Flatten(R.events[t + 1..]), envs[t].sendOk);
  }

  /**
   * A user erased in a pass ends it in the state its own visit left it in,
   * which is no longer connected. Before its turn, a live socket whose sends
   * succeed was written exactly the framed events of the users visited
   * before it, in visit order; no event of a later visit ever reaches it.
   */
  lemma ErasedUserMissesLaterEvents(users: seq<UserState>, envs: seq<Env>, now: int, t: nat)
    requires |envs| == |users| && t < |users|
    requires !Sweep(users, envs, 0, now).kept[t]
    requires users[t].socket.Some? && users[t].socket.value.valid && envs[t].sendOk
    ensures var R := Sweep(users, envs, 0, now);
      var s := users[t].socket.value;
      var seen := users[t].(socket := Some(s.(sent := s.sent + Framed(Flatten(R.events[..t])))));
      var u := AfterUserProcess(seen, envs[t], now);
      && R.events[t] == u.messages
      && R.visited[t] == AfterSends(u.(messages := []), u.messages, true)
      && !Online(R.visited[t])
  {
    var R := Sweep(users, envs, 0, now);
    PassVisits(users, envs, 0, now);
    assert VisitedAs(users, envs, 0, now, R, t);
    SendsAppend(users[t], Flatten(R.events[..t]), true);
  }
}
