/**
 The node-statistics server: a collector holding a map of authorised nodes, and
 websocket sessions that register a node on "hello" and owe its removal on exit.
 */
module Stats {
  import opened Common

  type ID = string

  datatype AuthReport = AuthReport(id: ID, info: string, secret: string)

  /** `Other` stands for the latency, block, pending, status and ping reports. */
  datatype Report = Auth(auth: AuthReport) | Other(id: ID) | Disconnect(id: ID)

  datatype Error = NoError | AuthFailed | NotAuthorized

  /** The collected node; the statistics fields are never stored back. */
  datatype Node = Node(id: ID, info: string)

  /** The callback that decides on a hello, if one is set. */
  type Callback = Option<AuthReport -> bool>

  predicate Accepts(callback: Callback, a: AuthReport) {
    callback.None? || callback.value(a)
  }

  /*--- The collector ---*/

  function Collected(nodes: map<ID, Node>, callback: Callback, r: Report): map<ID, Node> {
    match r
    case Auth(a) => if Accepts(callback, a) then nodes[a.id := Node(a.id, a.info)] else nodes
    case Other(_) => nodes
    case Disconnect(id) => nodes - {id}
  }

  function ErrorOf(nodes: map<ID, Node>, callback: Callback, r: Report): Error {
    match r
    case Auth(a) => if Accepts(callback, a) then NoError else AuthFailed
    case Other(id) => if id in nodes then NoError else NotAuthorized
    case Disconnect(id) => if id in nodes then NoError else NotAuthorized
  }

  /** The map after a trace of reports. */
  function After(callback: Callback, trace: seq<Report>): map<ID, Node> {
    if trace == [] then map[] else Collected(After(callback, trace[..|trace| - 1]), callback, trace[|trace| - 1])
  }

  predicate AcceptedHello(callback: Callback, r: Report, id: ID) {
    r.Auth? && r.auth.id == id && Accepts(callback, r.auth)
  }

  /** Report `i` is an accepted hello of `id` and nothing later accepts or disconnects it. */
  ghost predicate LastWord(callback: Callback, trace: seq<Report>, id: ID, i: int) {
    && 0 <= i < |trace| && AcceptedHello(callback, trace[i], id)
    && forall j | i < j < |trace| :: trace[j] != Disconnect(id) && !AcceptedHello(callback, trace[j], id)
  }

  /**
   Membership over every trace: an ID is present exactly when its last accepted
   hello has no later disconnect, and then with that hello's info. No other
   kind of report adds an ID, and no refused hello does.
   */
  lemma {:induction false} Membership(callback: Callback, trace: seq<Report>, id: ID)
    ensures id in After(callback, trace) <==> exists i :: LastWord(callback, trace, id, i)
    ensures forall i :: LastWord(callback, trace, id, i) ==>
      id in After(callback, trace) && After(callback, trace)[id] == Node(id, trace[i].auth.info)
    decreases |trace|
  {
    if trace != [] {
      var n := |trace| - 1;
      var rest := trace[..n];
      Membership(callback, rest, id);
      if AcceptedHello(callback, trace[n], id) {
        assert LastWord(callback, trace, id, n);
      } else if trace[n] != Disconnect(id) {
        assert forall i :: LastWord(callback, rest, id, i) <==> LastWord(callback, trace, id, i) && i != n;
      }
    }
  }

  lemma AfterSnoc(callback: Callback, trace: seq<Report>, r: Report)
    ensures After(callback, trace + [r]) == Collected(After(callback, trace), callback, r)
  {
    assert (trace + [r])[..|trace|] == trace;
  }

  /** The IDs whose hello was accepted among these reports. */
  ghost function AcceptedIDs(callback: Callback, reports: seq<Report>): set<ID> {
    set r | r in reports && r.Auth? && Accepts(callback, r.auth) :: r.auth.id
  }

  function IDs(ids: seq<ID>): set<ID> {
    set id | id in ids
  }

  class Collector {
    var nodes: map<ID, Node>
    const callback: Callback
    /** Every report collected so far. */
    ghost var trace: seq<Report>

    ghost predicate Valid()
      reads this
    {
      nodes == After(callback, trace)
    }

    constructor (callback: Callback)
      ensures Valid() && nodes == map[] && trace == [] && this.callback == callback
    {
      this.callback := callback;
      nodes, trace := map[], [];
    }

    method Collect(r: Report) returns (e: Error)
      requires Valid()
      modifies this`nodes, this`trace
      ensures Valid() && trace == old(trace) + [r]
      ensures nodes == Collected(old(nodes), callback, r)
      ensures e == ErrorOf(old(nodes), callback, r)
      ensures e == AuthFailed <==> r.Auth? && callback.Some? && !callback.value(r.auth)
      ensures e == NotAuthorized <==> !r.Auth? && r.id !in old(nodes)
    {
      AfterSnoc(callback, trace, r);
      trace := trace + [r];
      if r.Auth? {
        if callback.Some? && !callback.value(r.auth) { return AuthFailed; }
        nodes := nodes[r.auth.id := Node(r.auth.id, r.auth.info)];
        return NoError;
      }
      if r.id !in nodes { return NotAuthorized; }
      if r.Disconnect? { nodes := nodes - {r.id}; }
      return NoError;
    }

    /** A node is found exactly when its last accepted hello has no later disconnect, with that hello's info. */
    method Get(id: ID) returns (node: Option<Node>)
      requires Valid()
      ensures node.Some? <==> exists i :: LastWord(callback, trace, id, i)
      ensures forall i :: LastWord(callback, trace, id, i) ==> node == Some(Node(id, trace[i].auth.info))
    {
      Membership(callback, trace, id);
      if id in nodes { return Some(nodes[id]); }
      return None;
    }

    /** The IDs being collected, each once, in whatever order the map is walked. */
    method List() returns (ids: seq<ID>)
      requires Valid()
      ensures forall id :: id in ids <==> exists i :: LastWord(callback, trace, id, i)
      ensures forall i, j | 0 <= i < j < |ids| :: ids[i] != ids[j]
    {
      ids := [];
      var todo := nodes.Keys;
      while todo != {}
        invariant todo <= nodes.Keys
        invariant forall id :: id in nodes <==> id in ids || id in todo
        invariant forall id | id in ids :: id !in todo
        invariant forall i, j | 0 <= i < j < |ids| :: ids[i] != ids[j]
        decreases |todo|
      {
        var id :| id in todo;
        ids := ids + [id];
        todo := todo - {id};
      }
      forall id ensures id in ids <==> exists i :: LastWord(callback, trace, id, i) {
        Membership(callback, trace, id);
      }
    }

    /** One frame, decoded over what the previous one left in the variable. */
    method Handle(m: Message, was: Payload, deferred: seq<ID>) returns (open: bool, payload: Payload, owed: seq<ID>)
      requires Valid()
      modifies this`nodes, this`trace
      ensures Valid() && trace == old(trace) + Reported(m, was)
      ensures m.topic == Hello && m.payload.Some? && m.payload.value.auth.Some? ==>
        trace == old(trace) + [Auth(m.payload.value.auth.value)]
      ensures m.topic == Stat && m.payload.Some? && m.payload.value.node.Some? ==>
        trace == old(trace) + [Other(m.payload.value.node.value)]
      ensures open ==> m.topic == Unknown || !m.replyFails
      ensures m.topic == Unknown || (m.topic == Ping && !m.replyFails) ==> open && nodes == old(nodes)
      ensures Standing(nodes, open, owed, payload) == Handled(Standing(old(nodes), true, deferred, was), callback, 0, m)
    {
      HandledIs(callback, nodes, deferred, was, m);
      open, payload, owed := true, was, deferred;
      if m.payload.Some? { payload := m.payload.value; }
      match m.topic {
        case Hello =>
          if payload.auth.None? { return false, payload, owed; }
          var e := Collect(Auth(payload.auth.value));
          if e != NoError { return false, payload, owed; }
          owed := owed + [payload.auth.value.id];
          open := !m.replyFails;
        case Stat =>
          if payload.node.None? { return false, payload, owed; }
          var e := Collect(Other(payload.node.value));
          open := e == NoError && !m.replyFails;
        case Ping => open := !m.replyFails;
        case Unknown =>
      }
    }

    /**
     One connection that nobody interferes with: it makes exactly the reports of
     the machine's session that reads these messages, and leaves the map as that
     session does. Every ID whose hello it had accepted is gone and every other
     node is as it was.
     */
    method Join(messages: seq<Message>)
      requires Valid()
      modifies this`nodes, this`trace
      ensures Valid() && trace == old(trace) + Said(Opened(old(nodes)), callback, messages)
      ensures nodes == Session(Opened(old(nodes)), callback, 0, messages).nodes
      ensures nodes == old(nodes) - AcceptedIDs(callback, trace[|old(trace)|..])
      ensures forall id | id in AcceptedIDs(callback, trace[|old(trace)|..]) :: Introduced(callback, messages, id)
    {
      var deferred: seq<ID> := [];
      var payload := EmptyPayload;
      var i := 0;
      var open := true;
      assert messages[0..] == messages;
      while open && i < |messages|
        invariant 0 <= i <= |messages| && Valid()
        invariant Tracks(callback, old(nodes), old(trace), Standing(nodes, open, deferred, payload), trace, messages, i)
        decreases |messages| - i
      {
        TracksNext(callback, old(nodes), old(trace), Standing(nodes, open, deferred, payload), trace, messages, i);
        open, payload, deferred := Handle(messages[i], payload, deferred);
        i := i + 1;
      }
      TracksEnd(callback, old(nodes), old(trace), nodes, trace, messages, i, open, deferred, payload);
      Leave(deferred);
      assert trace[|old(trace)|..] == Said(Opened(old(nodes)), callback, messages);
      SessionAccepts(Opened(old(nodes)), callback, messages);
      forall id | id in AcceptedIDs(callback, trace[|old(trace)|..]) ensures Introduced(callback, messages, id) {
        SaidIntroduced(Opened(old(nodes)), callback, messages, id);
      }
    }

    /** The deferred disconnects of a session, last first. */
    method Leave(deferred: seq<ID>)
      requires Valid()
      modifies this`nodes, this`trace
      ensures Valid() && trace == old(trace) + Farewells(deferred)
      ensures nodes == old(nodes) - IDs(deferred)
    {
      var n := |deferred|;
      assert deferred[..n] == deferred;
      while n > 0
        invariant 0 <= n <= |deferred|
        invariant Valid() && trace + Farewells(deferred[..n]) == old(trace) + Farewells(deferred)
        invariant nodes == old(nodes) - IDs(deferred[n..])
      {
        n := n - 1;
        RemoveOne(old(nodes), deferred, n);
        assert deferred[..n + 1][..n] == deferred[..n];
        var _ := Collect(Disconnect(deferred[n]));
      }
      assert deferred[0..] == deferred;
    }
  }

  lemma RemoveOne(was: map<ID, Node>, deferred: seq<ID>, n: nat)
    requires n < |deferred|
    ensures (was - IDs(deferred[n + 1..])) - {deferred[n]} == was - IDs(deferred[n..])
  {
    assert deferred[n..] == [deferred[n]] + deferred[n + 1..];
    assert IDs(deferred[n..]) == IDs(deferred[n + 1..]) + {deferred[n]};
  }

  lemma AcceptedConcat(callback: Callback, first: seq<Report>, second: seq<Report>)
    ensures AcceptedIDs(callback, first + second) == AcceptedIDs(callback, first) + AcceptedIDs(callback, second)
  {
    assert forall x :: x in first + second <==> x in first || x in second;
  }

  /*--- Messages ---*/

  datatype Topic = Hello | Ping | Stat | Unknown

  /** What a payload decodes to, as a hello and as a report naming a node. */
  datatype Payload = Payload(auth: Option<AuthReport>, node: Option<ID>)

  const EmptyPayload := Payload(None, None)

  /** A frame; without a payload of its own, the previous message's payload is still in the variable. */
  datatype Message = Message(topic: Topic, payload: Option<Payload>, replyFails: bool)

  /** Some message carried an acceptable hello for `id`. */
  ghost predicate Introduced(callback: Callback, messages: seq<Message>, id: ID) {
    exists m | m in messages ::
      m.payload.Some? && m.payload.value.auth.Some? && m.payload.value.auth.value.id == id &&
      Accepts(callback, m.payload.value.auth.value)
  }

  /*--- Any number of connections, interleaved ---*/

  /**
   Where a connection is: reading frames; between the accepted Collect and the
   `defer`; or running its deferred disconnects, last first.
   */
  datatype Phase = Reading | Registering(id: ID) | Closing

  datatype Conn = Conn(phase: Phase, deferred: seq<ID>, payload: Payload)

  /** The shared map and the open connections. */
  datatype System = System(nodes: map<ID, Node>, conns: map<nat, Conn>)

  const Idle := System(map[], map[])

  datatype Action =
    | Open(c: nat)
    | Receive(c: nat, m: Message)
    | Defer(c: nat, replyFails: bool)
    | Break(c: nat)
    | Unwind(c: nat)

  /** The action is possible in this state. */
  predicate Possible(s: System, a: Action) {
    match a
    case Open(c) => c !in s.conns
    case Receive(c, _) => c in s.conns && s.conns[c].phase == Reading
    case Defer(c, _) => c in s.conns && s.conns[c].phase.Registering?
    case Break(c) => c in s.conns && s.conns[c].phase == Reading
    case Unwind(c) => c in s.conns && s.conns[c].phase == Closing
  }

  /** A frame without a payload of its own is decoded over the previous one. */
  function PayloadOf(m: Message, was: Payload): Payload {
    if m.payload.Some? then m.payload.value else was
  }

  function Received(s: System, callback: Callback, c: nat, m: Message): System
    requires c in s.conns
  {
    var payload := PayloadOf(m, s.conns[c].payload);
    var conn := s.conns[c].(payload := payload);
    var next := if m.replyFails then Closing else Reading;
    match m.topic
    case Hello =>
      if payload.auth.Some? && Accepts(callback, payload.auth.value) then
        System(Collected(s.nodes, callback, Auth(payload.auth.value)),
               s.conns[c := conn.(phase := Registering(payload.auth.value.id))])
      else s.(conns := s.conns[c := conn.(phase := Closing)])
    case Stat =>
      var ok := payload.node.Some? && ErrorOf(s.nodes, callback, Other(payload.node.value)) == NoError;
      s.(conns := s.conns[c := conn.(phase := if ok then next else Closing)])
    case Ping => s.(conns := s.conns[c := conn.(phase := next)])
    case Unknown => s.(conns := s.conns[c := conn])
  }

  function Act(s: System, callback: Callback, a: Action): System
    requires Possible(s, a)
  {
    match a
    case Open(c) => s.(conns := s.conns[c := Conn(Reading, [], EmptyPayload)])
    case Receive(c, m) => Received(s, callback, c, m)
    case Defer(c, replyFails) =>
      var conn := s.conns[c];
      s.(conns := s.conns[c :=
        conn.(phase := if replyFails then Closing else Reading, deferred := conn.deferred + [conn.phase.id])])
    case Break(c) => s.(conns := s.conns[c := s.conns[c].(phase := Closing)])
    case Unwind(c) =>
      var conn := s.conns[c];
      var n := |conn.deferred|;
      if n == 0 then s.(conns := s.conns - {c})
      else System(Collected(s.nodes, callback, Disconnect(conn.deferred[n - 1])),
                  s.conns[c := conn.(deferred := conn.deferred[..n - 1])])
  }

  ghost predicate PossibleRun(s: System, callback: Callback, actions: seq<Action>)
    decreases |actions|
  {
    actions == [] || (Possible(s, actions[0]) && PossibleRun(Act(s, callback, actions[0]), callback, actions[1..]))
  }

  ghost function ActAll(s: System, callback: Callback, actions: seq<Action>): System
    requires PossibleRun(s, callback, actions)
    decreases |actions|
  {
    if actions == [] then s else ActAll(Act(s, callback, actions[0]), callback, actions[1..])
  }

  /*--- One session of the machine ---*/

  /** Connection 0 has just been opened, and there is no other. */
  function Opened(nodes: map<ID, Node>): System {
    System(nodes, map[0 := Conn(Reading, [], EmptyPayload)])
  }

  /** A frame is read and, if it was an accepted hello, its disconnect deferred and the reply sent. */
  function Handled(s: System, callback: Callback, c: nat, m: Message): System
    requires c in s.conns && s.conns[c].phase == Reading
  {
    var s' := Act(s, callback, Receive(c, m));
    if s'.conns[c].phase.Registering? then Act(s', callback, Defer(c, m.replyFails)) else s'
  }

  /** A closing connection runs all its deferred disconnects and is gone. */
  ghost function Unwound(s: System, callback: Callback, c: nat): System
    requires c in s.conns && s.conns[c].phase == Closing
    decreases |s.conns[c].deferred|
  {
    var s' := Act(s, callback, Unwind(c));
    if c in s'.conns then Unwound(s', callback, c) else s'
  }

  /** The connection reads the messages until one closes it or they end, and unwinds. */
  ghost function Session(s: System, callback: Callback, c: nat, messages: seq<Message>): System
    requires c in s.conns && !s.conns[c].phase.Registering?
    decreases |messages|
  {
    if s.conns[c].phase == Closing then Unwound(s, callback, c)
    else if messages == [] then Unwound(Act(s, callback, Break(c)), callback, c)
    else Session(Handled(s, callback, c, messages[0]), callback, c, messages[1..])
  }

  lemma MinusLast(nodes: map<ID, Node>, ids: seq<ID>, n: nat)
    requires |ids| == n + 1
    ensures (nodes - {ids[n]}) - IDs(ids[..n]) == nodes - IDs(ids)
  {
    assert ids == ids[..n] + [ids[n]];
    assert IDs(ids) == IDs(ids[..n]) + {ids[n]};
  }

  /** Unwinding deletes what was deferred, and only that. */
  lemma {:induction false} UnwoundNodes(s: System, callback: Callback, c: nat)
    requires c in s.conns && s.conns[c].phase == Closing
    ensures Unwound(s, callback, c) == System(s.nodes - IDs(s.conns[c].deferred), s.conns - {c})
    decreases |s.conns[c].deferred|
  {
    var ids := s.conns[c].deferred;
    if ids != [] {
      var n, s' := |ids| - 1, Act(s, callback, Unwind(c));
      UnwoundNodes(s', callback, c);
      MinusLast(s.nodes, ids, n);
      assert s'.conns - {c} == s.conns - {c};
    } else {
      assert s.nodes - IDs(ids) == s.nodes;
    }
  }

  lemma {:induction false} UnwoundIsRun(s: System, callback: Callback, c: nat) returns (actions: seq<Action>)
    requires c in s.conns && s.conns[c].phase == Closing
    ensures PossibleRun(s, callback, actions) && ActAll(s, callback, actions) == Unwound(s, callback, c)
    decreases |s.conns[c].deferred|
  {
    var s' := Act(s, callback, Unwind(c));
    var rest := [];
    if c in s'.conns { rest := UnwoundIsRun(s', callback, c); }
    actions := [Unwind(c)] + rest;
    assert actions[1..] == rest;
  }

  /** A session is a run of the machine, beside any other connections. */
  lemma {:induction false} SessionIsRun(s: System, callback: Callback, c: nat, messages: seq<Message>)
    returns (actions: seq<Action>)
    requires c in s.conns && !s.conns[c].phase.Registering?
    ensures PossibleRun(s, callback, actions) && ActAll(s, callback, actions) == Session(s, callback, c, messages)
    decreases |messages|
  {
    if s.conns[c].phase == Closing {
      actions := UnwoundIsRun(s, callback, c);
    } else if messages == [] {
      var rest := UnwoundIsRun(Act(s, callback, Break(c)), callback, c);
      actions := [Break(c)] + rest;
      assert actions[1..] == rest;
    } else {
      var m := messages[0];
      var s' := Act(s, callback, Receive(c, m));
      var rest := SessionIsRun(Handled(s, callback, c, m), callback, c, messages[1..]);
      if s'.conns[c].phase.Registering? {
        var deferring := [Defer(c, m.replyFails)] + rest;
        assert deferring[1..] == rest;
        actions := [Receive(c, m)] + deferring;
        assert actions[1..] == deferring;
      } else {
        actions := [Receive(c, m)] + rest;
        assert actions[1..] == rest;
      }
    }
  }

  /** Where a session with these variables stands. */
  function Standing(nodes: map<ID, Node>, open: bool, deferred: seq<ID>, payload: Payload): System {
    System(nodes, map[0 := Conn(if open then Reading else Closing, deferred, payload)])
  }

  /** The reports a message leads to, given the payload the previous one left. */
  function Reported(m: Message, was: Payload): seq<Report> {
    var payload := PayloadOf(m, was);
    match m.topic
    case Hello => if payload.auth.Some? then [Auth(payload.auth.value)] else []
    case Stat => if payload.node.Some? then [Other(payload.node.value)] else []
    case Ping => []
    case Unknown => []
  }

  function Farewells(ids: seq<ID>): seq<Report> {
    if ids == [] then [] else [Disconnect(ids[|ids| - 1])] + Farewells(ids[..|ids| - 1])
  }

  /** The reports of a session: those of each message up to the one that closes it, then the disconnects. */
  ghost function Said(s: System, callback: Callback, messages: seq<Message>): seq<Report>
    requires 0 in s.conns && !s.conns[0].phase.Registering?
    decreases |messages|
  {
    if s.conns[0].phase == Closing || messages == [] then Farewells(s.conns[0].deferred)
    else Reported(messages[0], s.conns[0].payload) + Said(Handled(s, callback, 0, messages[0]), callback, messages[1..])
  }

  /** After `i` messages the code stands where the machine does: the rest of the session is the same. */
  ghost predicate Tracks(
    callback: Callback, was: map<ID, Node>, heard: seq<Report>, s: System, trace: seq<Report>, messages: seq<Message>, i: nat)
    requires i <= |messages| && 0 in s.conns && !s.conns[0].phase.Registering?
  {
    && Session(s, callback, 0, messages[i..]) == Session(Opened(was), callback, 0, messages)
    && trace + Said(s, callback, messages[i..]) == heard + Said(Opened(was), callback, messages)
  }

  /** What handling one message does to the variables of the session. */
  lemma HandledIs(callback: Callback, nodes: map<ID, Node>, deferred: seq<ID>, was: Payload, m: Message)
    ensures var payload := PayloadOf(m, was);
      Handled(Standing(nodes, true, deferred, was), callback, 0, m) ==
        match m.topic
        case Hello =>
          if payload.auth.Some? && Accepts(callback, payload.auth.value) then
            var r := payload.auth.value;
            Standing(nodes[r.id := Node(r.id, r.info)], !m.replyFails, deferred + [r.id], payload)
          else Standing(nodes, false, deferred, payload)
        case Stat => Standing(nodes, payload.node.Some? && payload.node.value in nodes && !m.replyFails, deferred, payload)
        case Ping => Standing(nodes, !m.replyFails, deferred, payload)
        case Unknown => Standing(nodes, true, deferred, payload)
  {
    var s := Standing(nodes, true, deferred, was);
    var s' := Act(s, callback, Receive(0, m));
    assert s'.conns.Keys == {0};
    if s'.conns[0].phase.Registering? {
      var s'' := Act(s', callback, Defer(0, m.replyFails));
      assert s''.conns == map[0 := s''.conns[0]];
    } else {
      assert s'.conns == map[0 := s'.conns[0]];
    }
  }

  lemma TracksNext(
    callback: Callback, was: map<ID, Node>, heard: seq<Report>, s: System, trace: seq<Report>, messages: seq<Message>, i: nat)
    requires i < |messages| && 0 in s.conns && s.conns[0].phase == Reading
    requires Tracks(callback, was, heard, s, trace, messages, i)
    ensures var s' := Handled(s, callback, 0, messages[i]);
      Tracks(callback, was, heard, s', trace + Reported(messages[i], s.conns[0].payload), messages, i + 1)
  {
    assert messages[i..][0] == messages[i] && messages[i..][1..] == messages[i + 1..];
  }

  lemma TracksEnd(
    callback: Callback, was: map<ID, Node>, heard: seq<Report>, nodes: map<ID, Node>, trace: seq<Report>,
    messages: seq<Message>, i: nat, open: bool, deferred: seq<ID>, payload: Payload)
    requires i <= |messages| && (open ==> i == |messages|)
    requires Tracks(callback, was, heard, Standing(nodes, open, deferred, payload), trace, messages, i)
    ensures Session(Opened(was), callback, 0, messages).nodes == nodes - IDs(deferred)
    ensures trace + Farewells(deferred) == heard + Said(Opened(was), callback, messages)
  {
    var s := Standing(nodes, open, deferred, payload);
    var closing := if open then Act(s, callback, Break(0)) else s;
    assert open ==> messages[i..] == [];
    UnwoundNodes(closing, callback, 0);
  }

  lemma {:induction false} FarewellsAccept(callback: Callback, ids: seq<ID>)
    ensures AcceptedIDs(callback, Farewells(ids)) == {}
  {
    if ids != [] {
      FarewellsAccept(callback, ids[..|ids| - 1]);
      AcceptedConcat(callback, [Disconnect(ids[|ids| - 1])], Farewells(ids[..|ids| - 1]));
    }
  }

  /** An accepted hello is registered and owed; any other message changes neither. */
  lemma HandledOwes(s: System, callback: Callback, m: Message)
    requires 0 in s.conns && s.conns[0].phase == Reading
    ensures var s', ids := Handled(s, callback, 0, m), AcceptedIDs(callback, Reported(m, s.conns[0].payload));
      && 0 in s'.conns && !s'.conns[0].phase.Registering?
      && IDs(s'.conns[0].deferred) == IDs(s.conns[0].deferred) + ids
      && s'.nodes - ids == s.nodes - ids
  {
    var conn := s.conns[0];
    ReportedAccepts(callback, m, conn.payload);
    if HelloAccepted(callback, m, conn.payload) {
      var id := PayloadOf(m, conn.payload).auth.value.id;
      assert IDs(conn.deferred + [id]) == IDs(conn.deferred) + {id};
    } else {
      assert IDs(conn.deferred) + {} == IDs(conn.deferred);
    }
  }

  predicate HelloAccepted(callback: Callback, m: Message, was: Payload) {
    m.topic == Hello && PayloadOf(m, was).auth.Some? && Accepts(callback, PayloadOf(m, was).auth.value)
  }

  lemma ReportedAccepts(callback: Callback, m: Message, was: Payload)
    ensures AcceptedIDs(callback, Reported(m, was)) ==
      if HelloAccepted(callback, m, was) then {PayloadOf(m, was).auth.value.id} else {}
  {
    if HelloAccepted(callback, m, was) {
      assert Auth(PayloadOf(m, was).auth.value) in Reported(m, was);
    }
  }

  lemma MinusUnion(m: map<ID, Node>, n: map<ID, Node>, a: set<ID>, b: set<ID>)
    requires m - a == n - a
    ensures m - (a + b) == n - (a + b)
  {
    assert m - (a + b) == (m - a) - b;
    assert n - (a + b) == (n - a) - b;
  }

  /** A session takes away the IDs it owed, and those whose hello it accepts, and no other. */
  lemma {:induction false} SessionAccepts(s: System, callback: Callback, messages: seq<Message>)
    requires 0 in s.conns && !s.conns[0].phase.Registering?
    ensures Session(s, callback, 0, messages).nodes ==
      s.nodes - (IDs(s.conns[0].deferred) + AcceptedIDs(callback, Said(s, callback, messages)))
    decreases |messages|
  {
    var owed := IDs(s.conns[0].deferred);
    if s.conns[0].phase == Closing || messages == [] {
      FarewellsAccept(callback, s.conns[0].deferred);
      UnwoundNodes(if s.conns[0].phase == Closing then s else Act(s, callback, Break(0)), callback, 0);
      assert owed + {} == owed;
    } else {
      var m, s' := messages[0], Handled(s, callback, 0, messages[0]);
      var ids, later := AcceptedIDs(callback, Reported(m, s.conns[0].payload)), AcceptedIDs(callback, Said(s', callback, messages[1..]));
      HandledOwes(s, callback, m);
      SessionAccepts(s', callback, messages[1..]);
      AcceptedConcat(callback, Reported(m, s.conns[0].payload), Said(s', callback, messages[1..]));
      MinusUnion(s'.nodes, s.nodes, ids, owed + later);
      assert (owed + ids) + later == ids + (owed + later);
      assert owed + (ids + later) == ids + (owed + later);
    }
  }

  /** The payload carries an acceptable hello for `id`. */
  predicate Carries(callback: Callback, payload: Payload, id: ID) {
    payload.auth.Some? && payload.auth.value.id == id && Accepts(callback, payload.auth.value)
  }

  lemma HandledPayload(s: System, callback: Callback, m: Message)
    requires 0 in s.conns && s.conns[0].phase == Reading
    ensures Handled(s, callback, 0, m).conns[0].payload == PayloadOf(m, s.conns[0].payload)
  {}

  /** The hello for `id` is the one left over, or in one of the messages. */
  ghost predicate Sourced(callback: Callback, was: Payload, messages: seq<Message>, id: ID) {
    Carries(callback, was, id) || Introduced(callback, messages, id)
  }

  lemma SourcedStep(callback: Callback, was: Payload, messages: seq<Message>, id: ID)
    requires messages != [] && Sourced(callback, PayloadOf(messages[0], was), messages[1..], id)
    ensures Sourced(callback, was, messages, id)
  {
    assert messages[0] in messages && forall m | m in messages[1..] :: m in messages;
  }

  lemma ReportedSourced(callback: Callback, m: Message, was: Payload, id: ID)
    requires id in AcceptedIDs(callback, Reported(m, was))
    ensures Carries(callback, PayloadOf(m, was), id)
  {
    ReportedAccepts(callback, m, was);
  }

  /** Every hello a session accepts was in a message, or left over from before. */
  lemma {:induction false} SaidSourced(s: System, callback: Callback, messages: seq<Message>, id: ID)
    requires 0 in s.conns && !s.conns[0].phase.Registering?
    requires id in AcceptedIDs(callback, Said(s, callback, messages))
    ensures Sourced(callback, s.conns[0].payload, messages, id)
    decreases |messages|
  {
    var was := s.conns[0].payload;
    if s.conns[0].phase == Closing || messages == [] {
      FarewellsAccept(callback, s.conns[0].deferred);
    } else {
      var s' := Handled(s, callback, 0, messages[0]);
      var reported, later := Reported(messages[0], was), Said(s', callback, messages[1..]);
      AcceptedConcat(callback, reported, later);
      HandledPayload(s, callback, messages[0]);
      if id in AcceptedIDs(callback, reported) {
        ReportedSourced(callback, messages[0], was, id);
      } else {
        SaidSourced(s', callback, messages[1..], id);
      }
      SourcedStep(callback, was, messages, id);
    }
  }

  lemma SaidIntroduced(s: System, callback: Callback, messages: seq<Message>, id: ID)
    requires 0 in s.conns && s.conns[0].phase == Reading && s.conns[0].payload == EmptyPayload
    requires id in AcceptedIDs(callback, Said(s, callback, messages))
    ensures Introduced(callback, messages, id)
  {
    SaidSourced(s, callback, messages, id);
  }

  /** The connection still has to disconnect `id`. */
  predicate Owes(conn: Conn, id: ID) {
    id in conn.deferred || conn.phase == Registering(id)
  }

  /** Every node in the map is owed a disconnect by some open connection. */
  ghost predicate AllOwed(s: System) {
    forall id | id in s.nodes :: exists c :: c in s.conns && Owes(s.conns[c], id)
  }

  /** Unless it is unwinding, a connection keeps owing what it owes. */
  lemma OwingKept(s: System, callback: Callback, a: Action, d: nat, id: ID)
    requires Possible(s, a) && !a.Unwind? && d in s.conns && Owes(s.conns[d], id)
    ensures var s' := Act(s, callback, a); d in s'.conns && Owes(s'.conns[d], id)
  {}

  /** Unwinding pays the last disconnect, after which its node is gone. */
  lemma OwingUnwound(s: System, callback: Callback, a: Action, d: nat, id: ID)
    requires Possible(s, a) && a.Unwind? && d in s.conns && Owes(s.conns[d], id)
    requires id in Act(s, callback, a).nodes
    ensures var s' := Act(s, callback, a); d in s'.conns && Owes(s'.conns[d], id)
  {
    if d == a.c {
      var deferred := s.conns[d].deferred;
      assert deferred == deferred[..|deferred| - 1] + [deferred[|deferred| - 1]];
    }
  }

  lemma OwedStep(s: System, callback: Callback, a: Action, id: ID)
    requires Possible(s, a) && AllOwed(s) && id in Act(s, callback, a).nodes
    ensures var s' := Act(s, callback, a); exists c :: c in s'.conns && Owes(s'.conns[c], id)
  {
    if id in s.nodes {
      var d :| d in s.conns && Owes(s.conns[d], id);
      if a.Unwind? {
        OwingUnwound(s, callback, a, d, id);
      } else {
        OwingKept(s, callback, a, d, id);
      }
    } else {
      var s' := Act(s, callback, a);
      assert a.Receive? && Owes(s'.conns[a.c], id);
    }
  }

  lemma {:induction false} OwedRun(s: System, callback: Callback, actions: seq<Action>)
    requires AllOwed(s) && PossibleRun(s, callback, actions)
    ensures AllOwed(ActAll(s, callback, actions))
    decreases |actions|
  {
    if actions != [] {
      var s' := Act(s, callback, actions[0]);
      forall id | id in s'.nodes ensures exists c :: c in s'.conns && Owes(s'.conns[c], id) {
        OwedStep(s, callback, actions[0], id);
      }
      OwedRun(s', callback, actions[1..]);
    }
  }

  /**
   No leaked node: over every interleaving of any number of connections, each
   ID in the map is owed a deferred disconnect by a connection still open, so
   when all connections have ended the map is empty.
   */
  lemma NoLeakedNode(callback: Callback, actions: seq<Action>)
    requires PossibleRun(Idle, callback, actions)
    ensures var s := ActAll(Idle, callback, actions);
      AllOwed(s) && (s.conns == map[] ==> s.nodes == map[])
  {
    OwedRun(Idle, callback, actions);
    var s := ActAll(Idle, callback, actions);
    assert s.conns == map[] ==> forall id :: id !in s.nodes;
  }

  /*--- When the map is exactly what is owed ---*/

  /** No ID is owed twice, by one connection or by two. */
  ghost predicate OwedOnce(s: System) {
    && (forall c, d, id | c in s.conns && d in s.conns && Owes(s.conns[c], id) && Owes(s.conns[d], id) :: c == d)
    && (forall c | c in s.conns :: Once(s.conns[c]))
  }

  predicate Once(conn: Conn) {
    && (forall i, j | 0 <= i < j < |conn.deferred| :: conn.deferred[i] != conn.deferred[j])
    && (conn.phase.Registering? ==> conn.phase.id !in conn.deferred)
  }

  /** The nodes in the map are exactly those some open connection owes a disconnect. */
  ghost predicate ExactlyOwed(s: System) {
    forall id :: id in s.nodes <==> exists c :: c in s.conns && Owes(s.conns[c], id)
  }

  /** A hello this action would accept is not for an ID some connection still owes. */
  ghost predicate FreshHello(s: System, a: Action) {
    a.Receive? && a.m.topic == Hello && a.c in s.conns ==>
      var payload := PayloadOf(a.m, s.conns[a.c].payload);
      payload.auth.Some? ==> forall c | c in s.conns :: !Owes(s.conns[c], payload.auth.value.id)
  }

  ghost predicate FreshHellos(s: System, callback: Callback, actions: seq<Action>)
    requires PossibleRun(s, callback, actions)
    decreases |actions|
  {
    actions == [] || (FreshHello(s, actions[0]) && FreshHellos(Act(s, callback, actions[0]), callback, actions[1..]))
  }

  /** What a connection owes after an action: less only by the ID it just disconnected, more only by a new hello. */
  lemma OwesAfter(s: System, callback: Callback, a: Action, d: nat, id: ID)
    requires Possible(s, a) && OwedOnce(s) && d in Act(s, callback, a).conns
    ensures var s' := Act(s, callback, a);
      && (Owes(s'.conns[d], id) ==> (d in s.conns && Owes(s.conns[d], id)) || (d == a.c && s'.conns[d].phase == Registering(id)))
      && (d in s.conns && Owes(s.conns[d], id) ==>
            Owes(s'.conns[d], id) || (a.Unwind? && d == a.c && s.conns[d].deferred != [] && id == s.conns[d].deferred[|s.conns[d].deferred| - 1]))
  {
    if a.Unwind? && d == a.c {
      var ids := s.conns[d].deferred;
      assert ids != [] ==> ids == ids[..|ids| - 1] + [ids[|ids| - 1]];
    }
  }

  lemma OnceStep(s: System, callback: Callback, a: Action)
    requires Possible(s, a) && OwedOnce(s) && FreshHello(s, a)
    ensures OwedOnce(Act(s, callback, a))
  {
    var s' := Act(s, callback, a);
    forall c, d, id | c in s'.conns && d in s'.conns && Owes(s'.conns[c], id) && Owes(s'.conns[d], id)
      ensures c == d
    {
      OwesAfter(s, callback, a, c, id);
      OwesAfter(s, callback, a, d, id);
    }
    forall c | c in s'.conns ensures Once(s'.conns[c]) {
      OnceConn(s, callback, a, c);
    }
  }

  lemma OnceConn(s: System, callback: Callback, a: Action, c: nat)
    requires Possible(s, a) && OwedOnce(s) && FreshHello(s, a) && c in Act(s, callback, a).conns
    ensures Once(Act(s, callback, a).conns[c])
  {}

  lemma ExactlyOwedAfter(s: System, callback: Callback, a: Action, id: ID)
    requires Possible(s, a) && OwedOnce(s) && ExactlyOwed(s) && FreshHello(s, a)
    ensures var s' := Act(s, callback, a); id in s'.nodes <==> exists c :: c in s'.conns && Owes(s'.conns[c], id)
  {
    var s' := Act(s, callback, a);
    if id in s'.nodes {
      OwedStep(s, callback, a, id);
    }
    forall c | c in s'.conns && Owes(s'.conns[c], id) ensures id in s'.nodes {
      OwesAfter(s, callback, a, c, id);
      if a.Unwind? && s.conns[a.c].deferred != [] && id == s.conns[a.c].deferred[|s.conns[a.c].deferred| - 1] {
        assert Owes(s.conns[a.c], id);
      }
    }
  }

  /**
   When no hello names an ID that a connection still owes, the map holds, after
   any interleaving, exactly the nodes whose connection is still open.
   */
  lemma {:induction false} ExactRun(s: System, callback: Callback, actions: seq<Action>)
    requires OwedOnce(s) && ExactlyOwed(s) && PossibleRun(s, callback, actions) && FreshHellos(s, callback, actions)
    ensures ExactlyOwed(ActAll(s, callback, actions))
    decreases |actions|
  {
    if actions != [] {
      OnceStep(s, callback, actions[0]);
      var s' := Act(s, callback, actions[0]);
      forall id ensures id in s'.nodes <==> exists c :: c in s'.conns && Owes(s'.conns[c], id) {
        ExactlyOwedAfter(s, callback, actions[0], id);
      }
      ExactRun(s', callback, actions[1..]);
    }
  }

  /*--- When two connections name one node ---*/

  /** Unwinding a disconnect keeps the map exact exactly when nobody else, and no earlier hello, still owes that ID. */
  lemma UnwindExactIff(s: System, callback: Callback, c: nat)
    requires ExactlyOwed(s) && Possible(s, Unwind(c)) && s.conns[c].deferred != []
    ensures var ids := s.conns[c].deferred;
      var last := ids[|ids| - 1];
      ExactlyOwed(Act(s, callback, Unwind(c))) <==>
        last !in ids[..|ids| - 1] && forall d | d in s.conns && d != c :: !Owes(s.conns[d], last)
  {
    var s' := Act(s, callback, Unwind(c));
    var ids := s.conns[c].deferred;
    var last := ids[|ids| - 1];
    assert ids == ids[..|ids| - 1] + [last];
    assert s'.conns.Keys == s.conns.Keys && forall d | d in s.conns && d != c :: s'.conns[d] == s.conns[d];
    forall id, d | id != last && d in s.conns ensures Owes(s'.conns[d], id) <==> Owes(s.conns[d], id) {}
    if last !in ids[..|ids| - 1] && forall d | d in s.conns && d != c :: !Owes(s.conns[d], last) {
      forall id ensures id in s'.nodes <==> exists d :: d in s'.conns && Owes(s'.conns[d], id) {
        if id != last {
          assert id in s'.nodes <==> id in s.nodes;
        }
      }
    } else {
      var d :| d in s'.conns && Owes(s'.conns[d], last);
      assert last !in s'.nodes;
    }
  }

  /** Some interleaving of connections leads to `s`. */
  ghost predicate Arises(callback: Callback, s: System) {
    exists actions :: PossibleRun(Idle, callback, actions) && ActAll(Idle, callback, actions) == s
  }

  lemma {:induction false} ActSnoc(s: System, callback: Callback, actions: seq<Action>, a: Action)
    requires PossibleRun(s, callback, actions) && Possible(ActAll(s, callback, actions), a)
    ensures PossibleRun(s, callback, actions + [a])
    ensures ActAll(s, callback, actions + [a]) == Act(ActAll(s, callback, actions), callback, a)
    decreases |actions|
  {
    if actions == [] {
      assert actions + [a] == [a] && [a][1..] == [];
    } else {
      ActSnoc(Act(s, callback, actions[0]), callback, actions[1..], a);
      assert (actions + [a])[1..] == actions[1..] + [a];
    }
  }

  lemma ArisesNext(callback: Callback, s: System, a: Action) returns (s': System)
    requires Arises(callback, s) && Possible(s, a)
    ensures s' == Act(s, callback, a) && Arises(callback, s')
  {
    var actions :| PossibleRun(Idle, callback, actions) && ActAll(Idle, callback, actions) == s;
    ActSnoc(Idle, callback, actions, a);
    s' := Act(s, callback, a);
  }

  /** Connection `c` opens and its hello is accepted and answered. */
  lemma Greets(callback: Callback, s: System, c: nat, report: AuthReport) returns (s': System)
    requires Arises(callback, s) && c !in s.conns && Accepts(callback, report)
    ensures Arises(callback, s') && report.id in s'.nodes
    ensures c in s'.conns && s'.conns[c].phase == Reading && s'.conns[c].deferred == [report.id]
    ensures s'.conns.Keys == s.conns.Keys + {c} && forall d | d in s.conns :: s'.conns[d] == s.conns[d]
  {
    var hello := Message(Hello, Some(Payload(Some(report), None)), false);
    var s1 := ArisesNext(callback, s, Open(c));
    var s2 := ArisesNext(callback, s1, Receive(c, hello));
    s' := ArisesNext(callback, s2, Defer(c, false));
  }

  /**
   The map is not exact in every interleaving: two connections say hello for
   one ID, the first one breaks off, and its deferred disconnect deletes the
   node although the second connection is still open and owes it.
   */
  lemma DoubleHello(callback: Callback, report: AuthReport) returns (s: System)
    requires Accepts(callback, report)
    ensures Arises(callback, s) && report.id !in s.nodes
    ensures 1 in s.conns && s.conns[1].phase == Reading && Owes(s.conns[1], report.id)
    ensures !ExactlyOwed(s)
  {
    assert PossibleRun(Idle, callback, []) && ActAll(Idle, callback, []) == Idle;
    var s1 := Greets(callback, Idle, 0, report);
    var s2 := Greets(callback, s1, 1, report);
    var s3 := ArisesNext(callback, s2, Break(0));
    s := ArisesNext(callback, s3, Unwind(0));
  }
}
