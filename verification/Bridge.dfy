/** The bridge's publisher and acceptor threads (usb_host.py), as the steps between which they
    can be interleaved: each thread's locked section, and each send it makes outside the lock. */
module Bridge {
  import opened Prelude

  const BACKLOG: nat := 600

  /** A published line; the serial number tells equal texts apart. */
  datatype Message = Message(serial: nat, text: string)

  /** The publisher between its locked section and its last send. */
  datatype Publishing = Publishing(message: Message, left: seq<nat>)

  /** The acceptor between its locked section and its one send. */
  datatype Greeting = Greeting(client: nat, lines: seq<Message>)

  /** `log`, `joined` and `received` are history: every line published so far, how many there
      were when each client was accepted, and what has been sent to each. */
  datatype BridgeState = BridgeState(
    backlog: seq<Message>, clients: seq<nat>, publishing: Option<Publishing>, greeting: Option<Greeting>,
    log: seq<Message>, joined: map<nat, nat>, received: map<nat, seq<Message>>)

  const IDLE: BridgeState := BridgeState([], [], None, None, [], map[], map[])

  /** deque(maxlen=600).append */
  function Kept(backlog: seq<Message>, m: Message): seq<Message> {
    var all := backlog + [m];
    if |all| > BACKLOG then all[|all| - BACKLOG..] else all
  }

  /** _publish, under the lock: extend the backlog, snapshot the clients. */
  function AfterPublish(s: BridgeState, text: string): BridgeState {
    if s.publishing.Some? then s
    else
      var m := Message(|s.log|, text);
      s.(backlog := Kept(s.backlog, m), log := s.log + [m],
         publishing := if s.clients == [] then None else Some(Publishing(m, s.clients)))
  }

  /** A send to a client that has gone raises OSError, which is swallowed. */
  function Sent(s: BridgeState, c: nat, lines: seq<Message>): map<nat, seq<Message>> {
    if c in s.clients && c in s.received then s.received[c := s.received[c] + lines] else s.received
  }

  /** _publish, one send outside the lock. */
  function AfterSend(s: BridgeState): BridgeState {
    match s.publishing
    case None => s
    case Some(p) =>
      if p.left == [] then s.(publishing := None)
      else s.(received := Sent(s, p.left[0], [p.message]),
              publishing := if |p.left| == 1 then None else Some(p.(left := p.left[1..])))
  }

  /** accept_loop, under the lock: register a new connection, snapshot the backlog. */
  function AfterAccept(s: BridgeState, c: nat): BridgeState {
    if s.greeting.Some? || c in s.joined then s
    else s.(clients := s.clients + [c], joined := s.joined[c := |s.log|], received := s.received[c := []],
            greeting := Some(Greeting(c, s.backlog)))
  }

  /** accept_loop, its send outside the lock. */
  function AfterGreet(s: BridgeState): BridgeState {
    match s.greeting
    case None => s
    case Some(g) => s.(received := Sent(s, g.client, g.lines), greeting := None)
  }

  function Without(clients: seq<nat>, c: nat): seq<nat> {
    if clients == [] then []
    else if clients[0] == c then clients[1..]
    else [clients[0]] + Without(clients[1..], c)
  }

  /** A client's reader thread ends: the client is taken off the list. */
  function AfterLeave(s: BridgeState, c: nat): BridgeState {
    s.(clients := Without(s.clients, c))
  }

  datatype Event = Publish(text: string) | SendNext | Accept(client: nat) | Greet | Leave(client: nat)

  function Apply(s: BridgeState, e: Event): BridgeState {
    match e
    case Publish(text) => AfterPublish(s, text)
    case SendNext => AfterSend(s)
    case Accept(c) => AfterAccept(s, c)
    case Greet => AfterGreet(s)
    case Leave(c) => AfterLeave(s, c)
  }

  datatype Run = Begin | Next(before: Run, event: Event)

  function End(r: Run): BridgeState {
    match r case Begin => IDLE case Next(before, e) => Apply(End(before), e)
  }

  // ----- exactly once, and in what order -----

  /** The live line on its way to client c: snapshot under the lock, not yet sent. */
  function OnWay(s: BridgeState, c: nat): seq<Message> {
    if s.publishing.Some? && c in s.publishing.value.left then [s.publishing.value.message] else []
  }

  /** Client c has been registered, and its backlog snapshot has yet to be sent. */
  predicate Awaits(s: BridgeState, c: nat) {
    s.greeting.Some? && s.greeting.value.client == c
  }

  /** The first line client c is meant to get: all of them, or the last 600 before it joined. */
  function FirstLine(s: BridgeState, c: nat): nat
    requires c in s.joined
  {
    if s.joined[c] > BACKLOG then s.joined[c] - BACKLOG else 0
  }

  predicate Distinct(clients: seq<nat>) {
    forall i, j :: 0 <= i < j < |clients| ==> clients[i] != clients[j]
  }

  ghost predicate Known(s: BridgeState, clients: seq<nat>) {
    Distinct(clients) && forall c :: c in clients ==> c in s.joined
  }

  ghost predicate Shape(s: BridgeState) {
    && (forall i :: 0 <= i < |s.log| ==> s.log[i].serial == i)
    && s.backlog == s.log[if |s.log| > BACKLOG then |s.log| - BACKLOG else 0..]
    && s.joined.Keys == s.received.Keys
    && Known(s, s.clients)
    && (s.publishing.Some? ==>
          && Known(s, s.publishing.value.left)
          && s.log != [] && s.publishing.value.message == s.log[|s.log| - 1])
    && (s.greeting.Some? ==> s.greeting.value.client in s.joined)
    && (forall c :: c in s.joined ==> s.joined[c] <= |s.log|)
  }

  /** What client c has been sent and what is on its way, line for line.  Until its backlog is
      sent: the lines published since it joined.  From then on: the n lines that overtook the
      backlog, the backlog, and the lines after those n. */
  ghost predicate Sequenced(s: BridgeState, c: nat, n: nat) {
    && c in s.joined && c in s.received && s.joined[c] <= |s.log|
    && var first, joined := FirstLine(s, c), s.joined[c];
       if Awaits(s, c)
       then s.greeting.value.lines == s.log[first..joined] && s.received[c] + OnWay(s, c) == s.log[joined..]
       else joined + n <= |s.log|
            && s.received[c] + OnWay(s, c) == s.log[joined..joined + n] + s.log[first..joined] + s.log[joined + n..]
  }

  /** As a multiset, what client c has been sent and what is on its way is each line it is meant
      to get, once. */
  ghost predicate Accounted(s: BridgeState, c: nat) {
    c in s.joined && c in s.received && FirstLine(s, c) <= |s.log|
    && multiset(s.received[c]) + multiset(OnWay(s, c)) + multiset(if Awaits(s, c) then s.greeting.value.lines else [])
       == multiset(s.log[FirstLine(s, c)..])
  }

  lemma SequencedIsAccounted(s: BridgeState, c: nat, n: nat)
    requires Sequenced(s, c, n)
    ensures Accounted(s, c)
  {
    hide OnWay, FirstLine;
    var first, joined := FirstLine(s, c), s.joined[c];
    FirstIsNoLater(s, c);
    if Awaits(s, c) {
      PendingTally(s.log, first, joined, s.received[c], OnWay(s, c));
    } else {
      GreetedTally(s.log, first, joined, n, s.received[c], OnWay(s, c));
    }
  }

  lemma FirstIsNoLater(s: BridgeState, c: nat)
    requires c in s.joined
    ensures FirstLine(s, c) <= s.joined[c]
  {
  }

  lemma PendingTally(log: seq<Message>, first: nat, joined: nat, sent: seq<Message>, way: seq<Message>)
    requires first <= joined <= |log| && sent + way == log[joined..]
    ensures multiset(sent) + multiset(way) + multiset(log[first..joined]) == multiset(log[first..])
  {
    assert multiset(sent + way) == multiset(sent) + multiset(way);
    assert log[first..] == log[first..joined] + (sent + way);
  }

  lemma GreetedTally(log: seq<Message>, first: nat, joined: nat, n: nat, sent: seq<Message>, way: seq<Message>)
    requires first <= joined && joined + n <= |log|
    requires sent + way == log[joined..joined + n] + log[first..joined] + log[joined + n..]
    ensures multiset(sent) + multiset(way) + multiset([]) == multiset(log[first..])
  {
    var a, b, c := log[joined..joined + n], log[first..joined], log[joined + n..];
    assert log[first..] == b + (a + c);
    assert multiset(sent + way) == multiset(sent) + multiset(way);
    assert multiset(a + b + c) == multiset(a) + multiset(b) + multiset(c);
    assert multiset(b + (a + c)) == multiset(b) + (multiset(a) + multiset(c));
  }

  lemma {:induction false} WithoutMembers(clients: seq<nat>, c: nat)
    requires Distinct(clients)
    ensures Distinct(Without(clients, c))
    ensures forall x :: x in Without(clients, c) <==> x in clients && x != c
  {
    if clients != [] && clients[0] != c {
      var rest := Without(clients[1..], c);
      DistinctTail(clients);
      WithoutMembers(clients[1..], c);
      assert clients[0] !in rest;
      DistinctCons(clients[0], rest);
      assert clients == [clients[0]] + clients[1..];
      hide Distinct, Without;
    } else if clients != [] {
      DistinctTail(clients);
      assert clients == [clients[0]] + clients[1..];
    }
  }

  lemma DistinctTail(clients: seq<nat>)
    requires Distinct(clients) && clients != []
    ensures Distinct(clients[1..]) && clients[0] !in clients[1..]
  {
    assert forall i :: 0 <= i < |clients| - 1 ==> clients[1..][i] == clients[i + 1];
  }

  lemma DistinctCons(c: nat, rest: seq<nat>)
    requires Distinct(rest) && c !in rest
    ensures Distinct([c] + rest)
  {
  }

  lemma WithoutKeeps(s: BridgeState, clients: seq<nat>, c: nat)
    requires Known(s, clients)
    ensures Known(s, Without(clients, c))
    ensures forall x :: x in Without(clients, c) <==> x in clients && x != c
  {
    WithoutMembers(clients, c);
  }

  lemma EventKeepsShape(s: BridgeState, e: Event)
    requires Shape(s)
    ensures Shape(Apply(s, e))
  {
    match e
    case Publish(text) => PublishKeepsShape(s, text);
    case Leave(c) => WithoutKeeps(s, s.clients, c);
    case Accept(c) => AcceptKeepsShape(s, c);
    case SendNext => hide Distinct; SendKeepsShape(s);
    case Greet => hide Distinct;
  }

  lemma PublishKeepsShape(s: BridgeState, text: string)
    requires Shape(s)
    ensures Shape(AfterPublish(s, text))
  {
    hide Distinct;
  }

  lemma AcceptKeepsShape(s: BridgeState, c: nat)
    requires Shape(s)
    ensures Shape(AfterAccept(s, c))
  {
  }

  lemma SendKeepsShape(s: BridgeState)
    requires Shape(s)
    ensures Shape(AfterSend(s))
  {
    if s.publishing.Some? && s.publishing.value.left != [] {
      DistinctTail(s.publishing.value.left);
      assert Known(s, s.publishing.value.left[1..]);
    }
    hide Distinct;
  }

  /** This event sends client c its backlog. */
  predicate Greets(s: BridgeState, e: Event, c: nat) {
    e.Greet? && Awaits(s, c) && c in s.received
  }

  lemma EventSequences(s: BridgeState, e: Event, c: nat, n: nat)
    requires Shape(s) && c in Apply(s, e).clients
    requires c in s.clients ==> Sequenced(s, c, n)
    ensures Sequenced(Apply(s, e), c, if Greets(s, e, c) then |s.received[c]| else n)
  {
    hide Sequenced, AfterPublish, AfterSend, AfterGreet, AfterAccept;
    match e
    case Publish(text) => PublishKeepsClients(s, text); PublishSequences(s, text, c, n);
    case SendNext => SendKeepsClients(s); SendSequences(s, c, n);
    case Accept(client) => AcceptSequences(s, client, c, n);
    case Greet => SendKeepsClients(s); GreetSequences(s, c, n);
    case Leave(client) =>
      WithoutKeeps(s, s.clients, client);
      LeaveSequences(s, client, c, n);
  }

  lemma PublishKeepsClients(s: BridgeState, text: string)
    ensures AfterPublish(s, text).clients == s.clients
  {
  }

  lemma SendKeepsClients(s: BridgeState)
    ensures AfterSend(s).clients == s.clients && AfterGreet(s).clients == s.clients
  {
  }

  lemma LeaveSequences(s: BridgeState, client: nat, c: nat, n: nat)
    requires Sequenced(s, c, n)
    ensures Sequenced(AfterLeave(s, client), c, n)
  {
  }

  lemma PublishSequences(s: BridgeState, text: string, c: nat, n: nat)
    requires c in s.clients && Sequenced(s, c, n)
    ensures Sequenced(AfterPublish(s, text), c, n)
  {
    hide Kept;
    if s.publishing.None? {
      var m := Message(|s.log|, text);
      var s' := AfterPublish(s, text);
      assert OnWay(s, c) == [] && OnWay(s', c) == [m] && s'.received == s.received;
      assert s.received[c] + [] == s.received[c] && FirstLine(s', c) == FirstLine(s, c);
      OneLineMore(s.log, m, FirstLine(s, c), s.joined[c], if Awaits(s, c) then 0 else n);
      hide OnWay, FirstLine, AfterPublish;
      assert s'.log == s.log + [m];
    }
  }

  lemma OneLineMore(log: seq<Message>, m: Message, first: nat, joined: nat, n: nat)
    requires first <= joined && joined + n <= |log|
    ensures (log + [m])[first..joined] == log[first..joined] && (log + [m])[joined..] == log[joined..] + [m]
    ensures (log + [m])[joined..joined + n] == log[joined..joined + n]
    ensures (log + [m])[joined + n..] == log[joined + n..] + [m]
  {
  }

  /** A send takes its line from what is on the way to that client to what it has received. */
  lemma SendMoves(s: BridgeState, c: nat)
    requires c in s.clients && c in s.received
    requires s.publishing.Some? ==> Distinct(s.publishing.value.left)
    ensures var s' := AfterSend(s);
            && s'.log == s.log && s'.joined == s.joined && s'.greeting == s.greeting && c in s'.received
            && s'.received[c] + OnWay(s', c) == s.received[c] + OnWay(s, c)
  {
    if s.publishing.Some? && s.publishing.value.left != [] {
      var left := s.publishing.value.left;
      assert left == [left[0]] + left[1..];
      assert left[0] !in left[1..];
    }
  }

  lemma SendSequences(s: BridgeState, c: nat, n: nat)
    requires c in s.clients && Sequenced(s, c, n)
    requires s.publishing.Some? ==> Distinct(s.publishing.value.left)
    ensures Sequenced(AfterSend(s), c, n)
  {
    SendMoves(s, c);
    hide Distinct, AfterSend, OnWay;
  }

  lemma AcceptSequences(s: BridgeState, client: nat, c: nat, n: nat)
    requires Shape(s) && c in AfterAccept(s, client).clients
    requires c in s.clients ==> Sequenced(s, c, n)
    ensures Sequenced(AfterAccept(s, client), c, n)
  {
    hide Distinct, Sequenced;
    if s.greeting.None? && client !in s.joined {
      if c in s.clients { OldClientSequences(s, client, c, n); } else { NewClientSequences(s, client, n); }
    }
  }

  lemma OldClientSequences(s: BridgeState, client: nat, c: nat, n: nat)
    requires Sequenced(s, c, n) && client !in s.joined && s.greeting.None?
    ensures Sequenced(AfterAccept(s, client), c, n)
  {
    assert c != client;
  }

  lemma NewClientSequences(s: BridgeState, client: nat, n: nat)
    requires Shape(s) && client !in s.joined && s.greeting.None?
    ensures Sequenced(AfterAccept(s, client), client, n)
  {
    hide Distinct;
    assert s.publishing.Some? ==> client !in s.publishing.value.left;
    hide Known;
    var s' := AfterAccept(s, client);
    assert OnWay(s', client) == [] && s'.received[client] == [];
    assert s.log[FirstLine(s', client)..|s.log|] == s.log[FirstLine(s', client)..];
  }

  /** The backlog goes out behind the live lines sent before it. */
  lemma GreetSequences(s: BridgeState, c: nat, n: nat)
    requires Shape(s) && c in s.clients && Sequenced(s, c, n)
    ensures Sequenced(AfterGreet(s), c, if Greets(s, Greet, c) then |s.received[c]| else n)
  {
    hide Shape, Known, Distinct;
    assert OnWay(AfterGreet(s), c) == OnWay(s, c);
    hide OnWay, FirstLine;
    if Awaits(s, c) {
      GoesBehind(s.log, FirstLine(s, c), s.joined[c], s.received[c], OnWay(s, c));
    }
  }

  lemma GoesBehind(log: seq<Message>, first: nat, joined: nat, before: seq<Message>, way: seq<Message>)
    requires first <= joined <= |log| && before + way == log[joined..]
    ensures joined + |before| <= |log|
    ensures before + log[first..joined] + way
         == log[joined..joined + |before|] + log[first..joined] + log[joined + |before|..]
  {
    var k := joined + |before|;
    assert log[joined..k] == (before + way)[..|before|] && log[k..] == (before + way)[|before|..];
    assert (before + way)[..|before|] == before && (before + way)[|before|..] == way;
  }

  /** How many live lines client c had been sent when its backlog was. */
  function Overtakers(r: Run, c: nat): nat {
    match r
    case Begin => 0
    case Next(before, e) => if Greets(End(before), e, c) then |End(before).received[c]| else Overtakers(before, c)
  }

  /** In every interleaving, for every connected client, the exact sequence of lines it has been
      sent and is owed. */
  lemma {:induction false} ExactSequence(r: Run, c: nat)
    ensures Shape(End(r))
    ensures c in End(r).clients ==> Sequenced(End(r), c, Overtakers(r, c))
  {
    hide Apply, Shape, Sequenced, Greets;
    match r
    case Begin => StartsEmpty();
    case Next(before, e) =>
      ExactSequence(before, c);
      EventKeepsShape(End(before), e);
      if c in End(r).clients { EventSequences(End(before), e, c, Overtakers(before, c)); }
  }

  /** Every connected client is owed or has been sent each line exactly once: through the
      backlog snapshot or the live send, never both and never neither. */
  lemma EveryLineOnce(r: Run, c: nat)
    ensures c in End(r).clients ==> Accounted(End(r), c)
  {
    ExactSequence(r, c);
    hide Sequenced, Accounted;
    if c in End(r).clients { SequencedIsAccounted(End(r), c, Overtakers(r, c)); }
  }

  /** Once both threads are outside their sections, a connected client has its lines in the order
      they were published iff no live line reached it before its backlog, or there was none. */
  lemma InOrderIff(r: Run, c: nat)
    requires var s := End(r); c in s.clients && s.publishing.None? && s.greeting.None?
    ensures var s := End(r);
            && c in s.joined && c in s.received && FirstLine(s, c) <= |s.log|
            && (s.received[c] == s.log[FirstLine(s, c)..] <==> Overtakers(r, c) == 0 || s.joined[c] == 0)
  {
    hide End, Overtakers, Shape, Sequenced;
    ExactSequence(r, c);
    SerialsCount(End(r));
    InOrderWhen(End(r), c, Overtakers(r, c));
  }

  lemma SerialsCount(s: BridgeState)
    requires Shape(s)
    ensures forall i :: 0 <= i < |s.log| ==> s.log[i].serial == i
  {
  }

  lemma InOrderWhen(s: BridgeState, c: nat, n: nat)
    requires Sequenced(s, c, n) && s.publishing.None? && s.greeting.None?
    requires forall i :: 0 <= i < |s.log| ==> s.log[i].serial == i
    ensures c in s.joined && c in s.received && FirstLine(s, c) <= |s.log|
    ensures s.received[c] == s.log[FirstLine(s, c)..] <==> n == 0 || s.joined[c] == 0
  {
    assert OnWay(s, c) == [] && s.received[c] + [] == s.received[c];
    Rotated(s.log, FirstLine(s, c), s.joined[c], n);
  }

  lemma Rotated(log: seq<Message>, first: nat, joined: nat, n: nat)
    requires first <= joined && joined + n <= |log| && forall i :: 0 <= i < |log| ==> log[i].serial == i
    ensures log[joined..joined + n] + log[first..joined] + log[joined + n..] == log[first..]
       <==> n == 0 || first == joined
  {
    var rotated := log[joined..joined + n] + log[first..joined] + log[joined + n..];
    if n == 0 || first == joined {
      assert rotated == log[first..];
    } else {
      assert rotated[0] == log[joined] && log[first..][0] == log[first];
    }
  }

  /** A client that has left is sent nothing any more, and no event sends one client anything but
      its backlog and the line being published. */
  lemma OnlyItsOwn(s: BridgeState, e: Event, c: nat)
    requires c in s.received && c in s.joined && Apply(s, e).received.Keys >= s.received.Keys
    ensures var got, now := s.received[c], Apply(s, e).received[c];
            && (c !in s.clients ==> now == got)
            && (now == got
                || (e.SendNext? && s.publishing.Some? && c in s.publishing.value.left && now == got + [s.publishing.value.message])
                || (e.Greet? && Awaits(s, c) && now == got + s.greeting.value.lines))
  {
  }

  // ----- whom a line is sent to first -----

  /** The clients that have connected, in order, and those that have left. */
  function Joins(r: Run): seq<nat> {
    match r
    case Begin => []
    case Next(before, e) =>
      if e.Accept? && End(before).greeting.None? && e.client !in End(before).joined then Joins(before) + [e.client]
      else Joins(before)
  }

  function Gone(r: Run): set<nat> {
    match r
    case Begin => {}
    case Next(before, e) =>
      if e.Leave? && e.client in End(before).clients then Gone(before) + {e.client} else Gone(before)
  }

  function Staying(q: seq<nat>, gone: set<nat>): seq<nat> {
    if q == [] then [] else (if q[0] in gone then [] else [q[0]]) + Staying(q[1..], gone)
  }

  lemma {:induction false} StayingAppend(q: seq<nat>, c: nat, gone: set<nat>)
    ensures Staying(q + [c], gone) == Staying(q, gone) + (if c in gone then [] else [c])
  {
    if q == [] {
      assert Staying([c], gone) == (if c in gone then [] else [c]) + Staying([], gone);
    } else {
      StayingAppend(q[1..], c, gone);
      assert (q + [c])[1..] == q[1..] + [c];
    }
  }

  lemma {:induction false} StayingWithout(q: seq<nat>, c: nat, gone: set<nat>)
    requires Distinct(Staying(q, gone))
    ensures Staying(q, gone + {c}) == Without(Staying(q, gone), c)
  {
    if q != [] {
      var rest := Staying(q[1..], gone);
      if q[0] in gone {
        assert Staying(q, gone) == rest && Staying(q, gone + {c}) == Staying(q[1..], gone + {c});
        StayingWithout(q[1..], c, gone);
      } else {
        assert Staying(q, gone)[1..] == rest;
        DistinctTail(Staying(q, gone));
        StayingWithout(q[1..], c, gone);
        if q[0] == c { NotThere(rest, c); }
      }
    }
  }

  lemma {:induction false} NotThere(q: seq<nat>, c: nat)
    requires c !in q
    ensures Without(q, c) == q
  {
    if q != [] { NotThere(q[1..], c); }
  }

  /** A line goes to the connected clients in the order in which they connected. */
  lemma {:induction false} ClientsInOrder(r: Run)
    ensures End(r).clients == Staying(Joins(r), Gone(r)) && Gone(r) <= End(r).joined.Keys
    ensures forall text: string :: End(r).publishing.None? && End(r).clients != [] ==>
              AfterPublish(End(r), text).publishing == Some(Publishing(Message(|End(r).log|, text), Staying(Joins(r), Gone(r))))
  {
    hide Shape, Staying, Without, Distinct;
    match r
    case Begin => assert Staying([], {}) == [] by { NoneStays(); }
    case Next(before, e) =>
      ClientsInOrder(before);
      ExactSequence(before, 0);
      var s := End(before);
      if e.Accept? { StayingAppend(Joins(before), e.client, Gone(before)); }
      if e.Leave? {
        KnownDistinct(s);
        StayingWithout(Joins(before), e.client, Gone(before));
        if e.client !in s.clients { NotThere(s.clients, e.client); }
      }
  }

  lemma NoneStays()
    ensures Staying([], {}) == []
  {
  }

  lemma KnownDistinct(s: BridgeState)
    requires Shape(s)
    ensures Distinct(s.clients) && forall c :: c in s.clients ==> c in s.joined
  {
  }

  /** A line is published, a client joins, and the next line is sent to it before its backlog. */
  function OvertakingRun(c: nat, first: string, second: string): Run {
    Next(Next(Next(Next(Next(Begin, Publish(first)), Accept(c)), Publish(second)), SendNext), Greet)
  }

  lemma LiveLineOvertakes(c: nat, first: string, second: string)
    ensures var s := End(OvertakingRun(c, first, second));
            s.clients == [c] && c in s.received && s.received[c] == [Message(1, second), Message(0, first)]
  {
    var r1 := Next(Begin, Publish(first));
    var s1 := End(r1);
    assert End(Begin) == IDLE;
    assert s1 == IDLE.(backlog := [Message(0, first)], log := [Message(0, first)]);
    var r2 := Next(r1, Accept(c));
    var s2 := End(r2);
    assert s2 == AfterAccept(s1, c);
    assert s2.clients == [c] && s2.publishing.None? && s2.log == [Message(0, first)];
    var r3 := Next(r2, Publish(second));
    var s3 := End(r3);
    assert s3 == AfterPublish(s2, second);
    assert s3.publishing == Some(Publishing(Message(1, second), [c]));
    var s4 := End(Next(r3, SendNext));
    assert s4.received[c] == [Message(1, second)] && s4.greeting == Some(Greeting(c, [Message(0, first)]));
  }

  lemma StartsEmpty()
    ensures Shape(IDLE) && IDLE.clients == []
  {
  }

  /** Once both threads are outside their sections, a connected client has received line i of
      the log once if it was published after, or among the last 600 before, the client joined,
      and not at all otherwise.  With at most 600 lines before it joined, that is every line. */
  lemma DeliveredExactlyOnce(r: Run, c: nat, i: nat)
    requires var s := End(r); c in s.clients && s.publishing.None? && s.greeting.None? && i < |s.log|
    ensures var s := End(r);
            && c in s.joined && c in s.received
            && multiset(s.received[c])[s.log[i]] == (if i + BACKLOG >= s.joined[c] then 1 else 0)
  {
    ExactSequence(r, c);
    EveryLineOnce(r, c);
    var s := End(r);
    var first := FirstLine(s, c);
    OnceInLog(s.log[first..], s.log[i], first, i);
  }

  /** Lines with consecutive serial numbers occur once each. */
  lemma {:induction false} OnceInLog(lines: seq<Message>, m: Message, first: nat, i: nat)
    requires forall k :: 0 <= k < |lines| ==> lines[k].serial == first + k
    requires m.serial == i && (first <= i < first + |lines| ==> lines[i - first] == m)
    ensures multiset(lines)[m] == if first <= i < first + |lines| then 1 else 0
  {
    if lines != [] {
      assert lines == [lines[0]] + lines[1..];
      OnceInLog(lines[1..], m, first + 1, i);
    }
  }

  // ----- the source's object -----

  /** The part of UsbHost the two threads share.  The history fields are ghost. */
  class BridgeHub {
    var backlog: seq<Message>
    var clients: seq<nat>
    var publishing: Option<Publishing>
    var greeting: Option<Greeting>
    var serial: nat
    ghost var log: seq<Message>
    ghost var joined: map<nat, nat>
    ghost var received: map<nat, seq<Message>>

    ghost predicate Valid()
      reads this
    {
      serial == |log|
    }

    ghost function State(): BridgeState
      reads this
    {
      BridgeState(backlog, clients, publishing, greeting, log, joined, received)
    }

    constructor ()
      ensures Valid() && State() == IDLE
    {
      backlog, clients, publishing, greeting, serial := [], [], None, None, 0;
      log, joined, received := [], map[], map[];
    }

    method PublishLocked(text: string)
      requires Valid() && publishing.None?
      modifies this
      ensures Valid() && State() == AfterPublish(old(State()), text)
    {
      var m := Message(serial, text);
      serial := serial + 1;
      backlog := backlog + [m];
      if |backlog| > BACKLOG {
        backlog := backlog[|backlog| - BACKLOG..];
      }
      log := log + [m];
      publishing := if clients == [] then None else Some(Publishing(m, clients));
    }

    method SendToNext()
      requires Valid() && publishing.Some? && publishing.value.left != []
      modifies this`publishing, this`received
      ensures Valid() && State() == AfterSend(old(State()))
    {
      var p := publishing.value;
      received := Sent(State(), p.left[0], [p.message]);
      publishing := if |p.left| == 1 then None else Some(p.(left := p.left[1..]));
    }

    /** A connection object is new each time: it has not joined before. */
    method AcceptLocked(c: nat)
      requires Valid() && greeting.None? && c !in joined
      modifies this`clients, this`joined, this`received, this`greeting
      ensures Valid() && State() == AfterAccept(old(State()), c)
    {
      clients := clients + [c];
      joined := joined[c := serial];
      received := received[c := []];
      greeting := Some(Greeting(c, backlog));
    }

    method SendGreeting()
      requires Valid() && greeting.Some?
      modifies this`greeting, this`received
      ensures Valid() && State() == AfterGreet(old(State()))
    {
      received := Sent(State(), greeting.value.client, greeting.value.lines);
      greeting := None;
    }

    method ReaderEnds(c: nat)
      requires Valid()
      modifies this`clients
      ensures Valid() && State() == AfterLeave(old(State()), c)
    {
      clients := Without(clients, c);
    }
  }
}
