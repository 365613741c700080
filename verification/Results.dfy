/** Result messages, and the block of them that answers a request for the runtime's nodes, with the
    decoder a client needs to read it. */
module Results {
  import opened CStrings
  import opened Descriptors
  import opened Options
  import opened Registry

  // Buffers and codes fixed by the wire format.
  datatype Limits = Limits(room: Room, invalidId: nat, stopCode: nat, lastCode: nat)

  datatype Endpoints = Endpoints(connectionId: nat, sourceNode: nat, sourcePort: nat,
                                 destinationNode: nat, destinationPort: nat, timing: nat)

  const NO_ENDPOINTS: Endpoints := Endpoints(0, 0, 0, 0, 0, 0)

  datatype CommandKind = LoadKind | AddKind | RemoveKind | SnapshotKind

  datatype Result = Result(number: nat, command: CommandKind, ok: bool, code: nat, nodeId: nat,
                           node: DescriptorCopy, connection: Endpoints)

  datatype ResultAttempt = ResultAttempt(result: Result, accepted: bool)

  // The result queue, if configured; accepts(n) is its answer to the n-th push.
  datatype ResultQueue = ResultQueue(present: bool, accepts: nat -> bool)

  // ---------- The result queue ----------

  function PushResult(q: ResultQueue, log: seq<ResultAttempt>, m: Result): (seq<ResultAttempt>, bool) {
    if !q.present then (log, false) else (log + [ResultAttempt(m, q.accepts(|log|))], q.accepts(|log|))
  }

  function PushAll(q: ResultQueue, log: seq<ResultAttempt>, ms: seq<Result>): (r: (seq<ResultAttempt>, bool))
    ensures log <= r.0
  {
    if ms == [] then (log, true)
    else
      var (log1, ok1) := PushAll(q, log, ms[..|ms| - 1]);
      var (log2, ok2) := PushResult(q, log1, ms[|ms| - 1]);
      (log2, ok1 && ok2)
  }

  lemma {:induction false} PushAllConcat(q: ResultQueue, log: seq<ResultAttempt>, a: seq<Result>, b: seq<Result>)
    ensures var (log1, ok1) := PushAll(q, log, a);
      var (log2, ok2) := PushAll(q, log1, b);
      PushAll(q, log, a + b) == (log2, ok1 && ok2)
  {
    if b == [] {
      assert a + b == a;
    } else {
      assert (a + b)[..|a + b| - 1] == a + b[..|b| - 1];
      PushAllConcat(q, log, a, b[..|b| - 1]);
    }
  }

  // What the client pops from a stretch of pushes.
  function Received(log: seq<ResultAttempt>): (r: seq<Result>)
    ensures |r| <= |log|
  {
    if log == [] then []
    else Received(log[..|log| - 1]) + (if log[|log| - 1].accepted then [log[|log| - 1].result] else [])
  }

  // What the client receives of the given pushes.
  function Arrived(q: ResultQueue, log: seq<ResultAttempt>, ms: seq<Result>): seq<Result> {
    Received(PushAll(q, log, ms).0[|log|..])
  }

  // ---------- The snapshot block ----------

  datatype RunState = InvalidState | RunState(code: nat)

  // A runtime connection; either end may have lost its port.
  datatype Connection = Connection(id: nat, sourceNode: nat, sourcePort: Option<nat>,
                                   destinationNode: nat, destinationPort: Option<nat>, timing: nat)

  function StatusCode(l: Limits, states: map<nat, RunState>, id: nat): nat {
    if id in states && states[id].RunState? then states[id].code else l.stopCode
  }

  function NodeResults(l: Limits, number: nat, loaded: seq<LoadedNode>, states: map<nat, RunState>, nodes: seq<Node>)
    : seq<Result>
  {
    if nodes == [] then []
    else
      var n, front := nodes[|nodes| - 1], NodeResults(l, number, loaded, states, nodes[..|nodes| - 1]);
      var entry := Get(loaded, n.name);
      if entry.None? then front
      else front + [Result(number, SnapshotKind, true, StatusCode(l, states, n.id), n.id,
                           Copy(l.room, entry.value.descriptor), NO_ENDPOINTS)]
  }

  function EndpointsOf(c: Connection): Endpoints
    requires c.sourcePort.Some? && c.destinationPort.Some?
  {
    Endpoints(c.id, c.sourceNode, c.sourcePort.value, c.destinationNode, c.destinationPort.value, c.timing)
  }

  function ConnectionResults(l: Limits, number: nat, connections: seq<Connection>): seq<Result> {
    if connections == [] then []
    else
      var c, front := connections[|connections| - 1], ConnectionResults(l, number, connections[..|connections| - 1]);
      if c.sourcePort.None? || c.destinationPort.None? then front
      else front + [Result(number, SnapshotKind, true, 0, l.invalidId, NO_COPY,
                           EndpointsOf(c))]
  }

  function Done(l: Limits, number: nat): Result {
    Result(number, SnapshotKind, true, l.lastCode, l.invalidId, NO_COPY, NO_ENDPOINTS)
  }

  function Block(l: Limits, number: nat, loaded: seq<LoadedNode>, states: map<nat, RunState>, nodes: seq<Node>,
                 connections: seq<Connection>): seq<Result>
  {
    NodeResults(l, number, loaded, states, nodes) + ConnectionResults(l, number, connections) + [Done(l, number)]
  }

  // ---------- The client's side ----------

  datatype NodeInfo = NodeInfo(id: nat, code: nat, descriptor: DescriptorCopy)

  datatype Graph = Graph(nodes: seq<NodeInfo>, connections: seq<Endpoints>)

  predicate IsDone(l: Limits, m: Result) {
    m.nodeId == l.invalidId && m.code == l.lastCode
  }

  function Prepend(l: Limits, m: Result, g: Graph): Graph {
    if m.nodeId == l.invalidId then g.(connections := [m.connection] + g.connections)
    else g.(nodes := [NodeInfo(m.nodeId, m.code, m.node)] + g.nodes)
  }

  // Reads a block up to its terminator; None when there is no terminator.
  function Decode(l: Limits, ms: seq<Result>): Option<Graph> {
    if ms == [] then None
    else if IsDone(l, ms[0]) then Some(Graph([], []))
    else
      var rest := Decode(l, ms[1..]);
      if rest.None? then None else Some(Prepend(l, ms[0], rest.value))
  }

  function Describe(l: Limits, states: map<nat, RunState>, n: Node, entry: LoadedNode): NodeInfo {
    NodeInfo(n.id, StatusCode(l, states, n.id), Copy(l.room, entry.descriptor))
  }

  // The graph the runtime holds, as far as it can be described: loaded nodes, whole connections.
  function Described(l: Limits, loaded: seq<LoadedNode>, states: map<nat, RunState>, nodes: seq<Node>): seq<NodeInfo> {
    if nodes == [] then []
    else
      var n, front := nodes[|nodes| - 1], Described(l, loaded, states, nodes[..|nodes| - 1]);
      var entry := Get(loaded, n.name);
      if entry.None? then front
      else front + [Describe(l, states, n, entry.value)]
  }

  function Whole(connections: seq<Connection>): seq<Endpoints> {
    if connections == [] then []
    else
      var c, front := connections[|connections| - 1], Whole(connections[..|connections| - 1]);
      if c.sourcePort.None? || c.destinationPort.None? then front
      else front + [EndpointsOf(c)]
  }

  function Snapshot(l: Limits, loaded: seq<LoadedNode>, states: map<nat, RunState>, nodes: seq<Node>,
                    connections: seq<Connection>): Graph
  {
    Graph(Described(l, loaded, states, nodes), Whole(connections))
  }

  ghost predicate Absent(nodes: seq<Node>, id: nat) {
    forall n :: n in nodes ==> n.id != id
  }

  ghost predicate ValidIds(l: Limits, nodes: seq<Node>) {
    Absent(nodes, l.invalidId)
  }

  // A description has no id that the runtime does not have.
  lemma {:induction false} AbsentNotDescribed(l: Limits, loaded: seq<LoadedNode>, states: map<nat, RunState>,
                                              nodes: seq<Node>, id: nat)
    requires Absent(nodes, id)
    ensures forall i :: 0 <= i < |Described(l, loaded, states, nodes)| ==>
      Described(l, loaded, states, nodes)[i].id != id
  {
    if nodes != [] { AbsentNotDescribed(l, loaded, states, nodes[..|nodes| - 1], id); }
  }

  // ---------- What a graph tells ----------

  // A node's own run state, and the stop code for a state that is invalid or missing.
  ghost predicate TellsState(l: Limits, states: map<nat, RunState>, id: nat, code: nat) {
    && (id in states && states[id].RunState? ==> code == states[id].code)
    && (id !in states || states[id].InvalidState? ==> code == l.stopCode)
  }

  ghost predicate Named(loaded: seq<LoadedNode>, name: Text) {
    exists k :: 0 <= k < |loaded| && loaded[k].descriptor.name == name
  }

  ghost predicate TellsNode(l: Limits, loaded: seq<LoadedNode>, states: map<nat, RunState>, n: Node, info: NodeInfo) {
    && info.id == n.id && TellsState(l, states, n.id, info.code)
    && exists k :: 0 <= k < |loaded| && loaded[k].descriptor.name == n.name
         && info.descriptor == Copy(l.room, loaded[k].descriptor)
  }

  ghost predicate TellsConnection(c: Connection, e: Endpoints) {
    && e.connectionId == c.id && e.timing == c.timing
    && e.sourceNode == c.sourceNode && c.sourcePort == Some(e.sourcePort)
    && e.destinationNode == c.destinationNode && c.destinationPort == Some(e.destinationPort)
  }

  ghost predicate Ascending(at: seq<nat>, n: nat) {
    && (forall k :: 0 <= k < |at| ==> at[k] < n)
    && (forall j, k :: 0 <= j < k < |at| ==> at[j] < at[k])
  }

  // The entries tell the runtime's named nodes, each once and in order; at says where each one comes from.
  ghost predicate TellsNodes(l: Limits, loaded: seq<LoadedNode>, states: map<nat, RunState>, nodes: seq<Node>,
                             infos: seq<NodeInfo>, at: seq<nat>) {
    && |at| == |infos| && Ascending(at, |nodes|)
    && (forall i :: 0 <= i < |nodes| ==> (i in at <==> Named(loaded, nodes[i].name)))
    && (forall k :: 0 <= k < |at| ==> TellsNode(l, loaded, states, nodes[at[k]], infos[k]))
  }

  ghost predicate TellsConnections(connections: seq<Connection>, ends: seq<Endpoints>, at: seq<nat>) {
    && |at| == |ends| && Ascending(at, |connections|)
    && (forall i :: 0 <= i < |connections| ==>
          (i in at <==> connections[i].sourcePort.Some? && connections[i].destinationPort.Some?))
    && (forall k :: 0 <= k < |at| ==> TellsConnection(connections[at[k]], ends[k]))
  }

  // The graph tells exactly the runtime's nodes of loaded modules and its connections with both ports.
  ghost predicate Tells(l: Limits, loaded: seq<LoadedNode>, states: map<nat, RunState>, nodes: seq<Node>,
                        connections: seq<Connection>, g: Graph) {
    && (exists at :: TellsNodes(l, loaded, states, nodes, g.nodes, at))
    && (exists at :: TellsConnections(connections, g.connections, at))
  }

  lemma NodesTellMore(l: Limits, loaded: seq<LoadedNode>, states: map<nat, RunState>, nodes: seq<Node>, n: Node,
                      infos: seq<NodeInfo>, at: seq<nat>, info: NodeInfo)
    requires TellsNodes(l, loaded, states, nodes, infos, at)
    ensures !Named(loaded, n.name) ==> TellsNodes(l, loaded, states, nodes + [n], infos, at)
    ensures Named(loaded, n.name) && TellsNode(l, loaded, states, n, info) ==>
      TellsNodes(l, loaded, states, nodes + [n], infos + [info], at + [|nodes|])
  {
    var more := nodes + [n];
    assert forall i :: 0 <= i < |nodes| ==> more[i] == nodes[i];
  }

  lemma DescribeTells(l: Limits, loaded: seq<LoadedNode>, states: map<nat, RunState>, n: Node)
    requires Get(loaded, n.name).Some?
    ensures Named(loaded, n.name) && TellsNode(l, loaded, states, n, Describe(l, states, n, Get(loaded, n.name).value))
  {
    assert loaded[Find(loaded, n.name)].descriptor.name == n.name;
  }

  lemma DescribedAppend(l: Limits, loaded: seq<LoadedNode>, states: map<nat, RunState>, nodes: seq<Node>, n: Node)
    ensures var infos, entry := Described(l, loaded, states, nodes), Get(loaded, n.name);
      Described(l, loaded, states, nodes + [n])
        == if entry.None? then infos else infos + [Describe(l, states, n, entry.value)]
  {
    assert (nodes + [n])[..|nodes|] == nodes;
  }

  // Where the described nodes stand among all.
  function Places(loaded: seq<LoadedNode>, nodes: seq<Node>): seq<nat> {
    if nodes == [] then []
    else
      var front := Places(loaded, nodes[..|nodes| - 1]);
      if Get(loaded, nodes[|nodes| - 1].name).None? then front else front + [|nodes| - 1]
  }

  lemma PlacesAppend(loaded: seq<LoadedNode>, nodes: seq<Node>, n: Node)
    ensures Places(loaded, nodes + [n])
         == if Get(loaded, n.name).None? then Places(loaded, nodes) else Places(loaded, nodes) + [|nodes|]
  {
    assert (nodes + [n])[..|nodes|] == nodes;
  }

  lemma DescribedTellsMore(l: Limits, loaded: seq<LoadedNode>, states: map<nat, RunState>, nodes: seq<Node>, n: Node)
    requires TellsNodes(l, loaded, states, nodes, Described(l, loaded, states, nodes), Places(loaded, nodes))
    ensures TellsNodes(l, loaded, states, nodes + [n], Described(l, loaded, states, nodes + [n]),
                       Places(loaded, nodes + [n]))
  {
    var infos, at, entry := Described(l, loaded, states, nodes), Places(loaded, nodes), Get(loaded, n.name);
    DescribedAppend(l, loaded, states, nodes, n);
    PlacesAppend(loaded, nodes, n);
    if entry.None? {
      NodesTellMore(l, loaded, states, nodes, n, infos, at, NodeInfo(0, 0, NO_COPY));
    } else {
      DescribeTells(l, loaded, states, n);
      NodesTellMore(l, loaded, states, nodes, n, infos, at, Describe(l, states, n, entry.value));
    }
  }

  lemma {:induction false} DescribedTells(l: Limits, loaded: seq<LoadedNode>, states: map<nat, RunState>,
                                          nodes: seq<Node>)
    ensures TellsNodes(l, loaded, states, nodes, Described(l, loaded, states, nodes), Places(loaded, nodes))
  {
    if nodes != [] {
      DescribedTells(l, loaded, states, nodes[..|nodes| - 1]);
      DescribedTellsMore(l, loaded, states, nodes[..|nodes| - 1], nodes[|nodes| - 1]);
      assert nodes[..|nodes| - 1] + [nodes[|nodes| - 1]] == nodes;
    }
  }

  lemma ConnectionsTellMore(cs: seq<Connection>, c: Connection, ends: seq<Endpoints>, at: seq<nat>, e: Endpoints)
    requires TellsConnections(cs, ends, at)
    ensures c.sourcePort.None? || c.destinationPort.None? ==> TellsConnections(cs + [c], ends, at)
    ensures TellsConnection(c, e) ==> TellsConnections(cs + [c], ends + [e], at + [|cs|])
  {
    var more := cs + [c];
    assert forall i :: 0 <= i < |cs| ==> more[i] == cs[i];
  }

  lemma WholeAppend(cs: seq<Connection>, c: Connection)
    ensures Whole(cs + [c])
         == if c.sourcePort.None? || c.destinationPort.None? then Whole(cs) else Whole(cs) + [EndpointsOf(c)]
  {
    assert (cs + [c])[..|cs|] == cs;
  }

  function WholePlaces(cs: seq<Connection>): seq<nat> {
    if cs == [] then []
    else
      var c, front := cs[|cs| - 1], WholePlaces(cs[..|cs| - 1]);
      if c.sourcePort.None? || c.destinationPort.None? then front else front + [|cs| - 1]
  }

  lemma WholePlacesAppend(cs: seq<Connection>, c: Connection)
    ensures WholePlaces(cs + [c])
         == if c.sourcePort.None? || c.destinationPort.None? then WholePlaces(cs) else WholePlaces(cs) + [|cs|]
  {
    assert (cs + [c])[..|cs|] == cs;
  }

  lemma WholeTellsMore(cs: seq<Connection>, c: Connection)
    requires TellsConnections(cs, Whole(cs), WholePlaces(cs))
    ensures TellsConnections(cs + [c], Whole(cs + [c]), WholePlaces(cs + [c]))
  {
    WholeAppend(cs, c);
    WholePlacesAppend(cs, c);
    if c.sourcePort.None? || c.destinationPort.None? {
      ConnectionsTellMore(cs, c, Whole(cs), WholePlaces(cs), NO_ENDPOINTS);
    } else {
      ConnectionsTellMore(cs, c, Whole(cs), WholePlaces(cs), EndpointsOf(c));
    }
  }

  lemma {:induction false} WholeTells(cs: seq<Connection>)
    ensures TellsConnections(cs, Whole(cs), WholePlaces(cs))
  {
    if cs != [] {
      WholeTells(cs[..|cs| - 1]);
      WholeTellsMore(cs[..|cs| - 1], cs[|cs| - 1]);
      assert cs[..|cs| - 1] + [cs[|cs| - 1]] == cs;
    }
  }

  lemma SnapshotTells(l: Limits, loaded: seq<LoadedNode>, states: map<nat, RunState>, nodes: seq<Node>,
                      connections: seq<Connection>)
    ensures Tells(l, loaded, states, nodes, connections, Snapshot(l, loaded, states, nodes, connections))
  {
    DescribedTells(l, loaded, states, nodes);
    WholeTells(connections);
  }

  // ---------- Round trip ----------

  // Every message of a block says which request it answers and that it went well; one about a node carries
  // no connection, one about a connection no node and no state, and the last one neither.
  ghost predicate Marked(l: Limits, m: Result, number: nat) {
    && m.number == number && m.command == SnapshotKind && m.ok
    && (m.nodeId != l.invalidId ==> m.connection == Endpoints(0, 0, 0, 0, 0, 0))
    && (m.nodeId == l.invalidId ==> m.node == NO_COPY)
    && (m.nodeId == l.invalidId && m.code != l.lastCode ==> m.code == 0)
    && (m.nodeId == l.invalidId && m.code == l.lastCode ==> m.connection == Endpoints(0, 0, 0, 0, 0, 0))
  }

  ghost predicate AllMarked(l: Limits, ms: seq<Result>, number: nat) {
    forall i :: 0 <= i < |ms| ==> Marked(l, ms[i], number)
  }

  lemma {:induction false} NodesMarked(l: Limits, number: nat, loaded: seq<LoadedNode>, states: map<nat, RunState>,
                                       nodes: seq<Node>)
    requires ValidIds(l, nodes)
    ensures AllMarked(l, NodeResults(l, number, loaded, states, nodes), number)
  {
    if nodes != [] { NodesMarked(l, number, loaded, states, nodes[..|nodes| - 1]); }
  }

  lemma {:induction false} ConnectionsMarked(l: Limits, number: nat, connections: seq<Connection>)
    requires l.lastCode != 0
    ensures AllMarked(l, ConnectionResults(l, number, connections), number)
  {
    if connections != [] { ConnectionsMarked(l, number, connections[..|connections| - 1]); }
  }

  lemma BlockIsMarked(l: Limits, number: nat, loaded: seq<LoadedNode>, states: map<nat, RunState>, nodes: seq<Node>,
                      connections: seq<Connection>)
    requires ValidIds(l, nodes) && l.lastCode != 0
    ensures AllMarked(l, Block(l, number, loaded, states, nodes, connections), number)
  {
    NodesMarked(l, number, loaded, states, nodes);
    ConnectionsMarked(l, number, connections);
  }

  // Each message of the block stands for one entry of the graph.
  ghost predicate NodeMessages(l: Limits, ms: seq<Result>, infos: seq<NodeInfo>) {
    |ms| == |infos| && forall i :: 0 <= i < |ms| ==>
      ms[i].nodeId != l.invalidId && infos[i] == NodeInfo(ms[i].nodeId, ms[i].code, ms[i].node)
  }

  ghost predicate ConnectionMessages(l: Limits, ms: seq<Result>, ends: seq<Endpoints>) {
    |ms| == |ends| && forall i :: 0 <= i < |ms| ==>
      ms[i].nodeId == l.invalidId && ms[i].code != l.lastCode && ends[i] == ms[i].connection
  }

  lemma {:induction false} NodesEncoded(l: Limits, number: nat, loaded: seq<LoadedNode>, states: map<nat, RunState>,
                                        nodes: seq<Node>)
    requires ValidIds(l, nodes)
    ensures NodeMessages(l, NodeResults(l, number, loaded, states, nodes), Described(l, loaded, states, nodes))
  {
    if nodes != [] { NodesEncoded(l, number, loaded, states, nodes[..|nodes| - 1]); }
  }

  lemma {:induction false} ConnectionsEncoded(l: Limits, number: nat, connections: seq<Connection>)
    requires l.lastCode != 0
    ensures ConnectionMessages(l, ConnectionResults(l, number, connections), Whole(connections))
  {
    if connections != [] { ConnectionsEncoded(l, number, connections[..|connections| - 1]); }
  }

  lemma {:induction false} DecodeConnections(l: Limits, cs: seq<Result>, ends: seq<Endpoints>, rest: seq<Result>)
    requires ConnectionMessages(l, cs, ends) && Decode(l, rest) == Some(Graph([], []))
    ensures Decode(l, cs + rest) == Some(Graph([], ends))
  {
    if cs == [] {
      assert cs + rest == rest;
    } else {
      DecodeConnections(l, cs[1..], ends[1..], rest);
      assert (cs + rest)[1..] == cs[1..] + rest;
      assert [ends[0]] + ends[1..] == ends;
    }
  }

  lemma {:induction false} DecodeNodes(l: Limits, ns: seq<Result>, infos: seq<NodeInfo>, rest: seq<Result>,
                                       ends: seq<Endpoints>)
    requires NodeMessages(l, ns, infos) && Decode(l, rest) == Some(Graph([], ends))
    ensures Decode(l, ns + rest) == Some(Graph(infos, ends))
  {
    if ns == [] {
      assert ns + rest == rest;
    } else {
      DecodeNodes(l, ns[1..], infos[1..], rest, ends);
      assert (ns + rest)[1..] == ns[1..] + rest;
      assert [infos[0]] + infos[1..] == infos;
    }
  }

  // A complete block decodes to the runtime's describable graph, whatever follows it in the queue.
  lemma BlockDecodes(l: Limits, number: nat, loaded: seq<LoadedNode>, states: map<nat, RunState>, nodes: seq<Node>,
                     connections: seq<Connection>, later: seq<Result>)
    requires ValidIds(l, nodes) && l.lastCode != 0
    ensures Decode(l, Block(l, number, loaded, states, nodes, connections) + later)
         == Some(Snapshot(l, loaded, states, nodes, connections))
  {
    var ns, cs := NodeResults(l, number, loaded, states, nodes), ConnectionResults(l, number, connections);
    var tail := [Done(l, number)] + later;
    NodesEncoded(l, number, loaded, states, nodes);
    ConnectionsEncoded(l, number, connections);
    DecodeConnections(l, cs, Whole(connections), tail);
    DecodeNodes(l, ns, Described(l, loaded, states, nodes), cs + tail, Whole(connections));
    assert Block(l, number, loaded, states, nodes, connections) + later == ns + (cs + tail);
  }

  lemma {:induction false} PushAllLogs(q: ResultQueue, log: seq<ResultAttempt>, ms: seq<Result>)
    requires q.present
    ensures var log' := PushAll(q, log, ms).0;
      && |log'| == |log| + |ms|
      && forall i :: 0 <= i < |ms| ==> log'[|log| + i].result == ms[i]
  {
    if ms != [] { PushAllLogs(q, log, ms[..|ms| - 1]); }
  }

  lemma ReceivedAppend(log: seq<ResultAttempt>, a: ResultAttempt)
    ensures Received(log + [a]) == Received(log) + (if a.accepted then [a.result] else [])
  {
    assert (log + [a])[..|log|] == log;
  }

  lemma PushAllStep(q: ResultQueue, log: seq<ResultAttempt>, ms: seq<Result>, m: Result)
    requires q.present
    ensures var (log1, ok1) := PushAll(q, log, ms);
      PushAll(q, log, ms + [m]) == (log1 + [ResultAttempt(m, q.accepts(|log1|))], ok1 && q.accepts(|log1|))
  {
    assert (ms + [m])[..|ms|] == ms;
  }

  lemma SuffixAppend(log: seq<ResultAttempt>, a: ResultAttempt, k: nat)
    requires k <= |log|
    ensures (log + [a])[k..] == log[k..] + [a]
  {
  }

  // What one more push adds to what arrives.
  lemma ArrivedStep(q: ResultQueue, log: seq<ResultAttempt>, ms: seq<Result>, m: Result)
    requires q.present
    ensures Arrived(q, log, ms + [m])
         == Arrived(q, log, ms) + (if q.accepts(|PushAll(q, log, ms).0|) then [m] else [])
  {
    var log1 := PushAll(q, log, ms).0;
    var a := ResultAttempt(m, q.accepts(|log1|));
    PushAllStep(q, log, ms, m);
    SuffixAppend(log1, a, |log|);
    ReceivedAppend(log1[|log|..], a);
  }

  lemma {:induction false} PushAllAppends(q: ResultQueue, log: seq<ResultAttempt>, ms: seq<Result>)
    requires q.present
    ensures var ok := PushAll(q, log, ms).1;
      && (ok ==> Arrived(q, log, ms) == ms)
      && (!ok ==> |Arrived(q, log, ms)| < |ms|)
      && |Arrived(q, log, ms)| <= |ms|
  {
    if ms == [] {
      assert log[|log|..] == [];
    } else {
      var front, m := ms[..|ms| - 1], ms[|ms| - 1];
      PushAllAppends(q, log, front);
      PushAllStep(q, log, front, m);
      ArrivedStep(q, log, front, m);
      assert front + [m] == ms;
    }
  }

  // The queue has room for every one of n pushes, the first being the one numbered from.
  ghost predicate Takes(q: ResultQueue, from: nat, n: nat) {
    q.present && forall k :: from <= k < from + n ==> q.accepts(k)
  }

  // A batch of pushes succeeds exactly when the queue takes each of them.
  lemma {:induction false} PushAllSucceedsIff(q: ResultQueue, log: seq<ResultAttempt>, ms: seq<Result>)
    requires q.present
    ensures var (log', ok) := PushAll(q, log, ms);
      && |log'| == |log| + |ms|
      && (ok <==> Takes(q, |log|, |ms|))
      && (ms != [] ==> log'[|log'| - 1].accepted == q.accepts(|log'| - 1))
  {
    if ms != [] { PushAllSucceedsIff(q, log, ms[..|ms| - 1]); }
  }

  function Size(g: Graph): nat {
    |g.nodes| + |g.connections|
  }

  // Reading never yields more entries than there are messages before the terminator.
  lemma {:induction false} DecodedSize(l: Limits, ms: seq<Result>)
    ensures Decode(l, ms).Some? ==> Size(Decode(l, ms).value) < |ms|
  {
    if ms != [] { DecodedSize(l, ms[1..]); }
  }

  lemma ArrivedWhole(q: ResultQueue, log: seq<ResultAttempt>, ms: seq<Result>)
    requires ms != []
    ensures PushAll(q, log, ms).1 <==> Takes(q, |log|, |ms|)
    ensures Takes(q, |log|, |ms|) ==> Arrived(q, log, ms) == ms
    ensures !Takes(q, |log|, |ms|) ==> |Arrived(q, log, ms)| < |ms|
  {
    if q.present {
      PushAllAppends(q, log, ms);
      PushAllSucceedsIff(q, log, ms);
    } else {
      NoQueue(q, log, ms);
    }
  }

  lemma SnapshotDecodes(l: Limits, q: ResultQueue, log: seq<ResultAttempt>, number: nat, loaded: seq<LoadedNode>,
                        states: map<nat, RunState>, nodes: seq<Node>, connections: seq<Connection>)
    requires ValidIds(l, nodes) && l.lastCode != 0
    ensures var b := Block(l, number, loaded, states, nodes, connections);
      && (PushAll(q, log, b).1 <==> Takes(q, |log|, |b|))
      && var whole := Snapshot(l, loaded, states, nodes, connections);
      && (Decode(l, Arrived(q, log, b)) == Some(whole) <==> Takes(q, |log|, |b|))
  {
    var b := Block(l, number, loaded, states, nodes, connections);
    BlockDecodes(l, number, loaded, states, nodes, connections, []);
    assert b + [] == b;
    ArrivedWhole(q, log, b);
    DecodedSize(l, Arrived(q, log, b));
    BlockSize(l, number, loaded, states, nodes, connections);
  }

  // The queue's answers decide: the call reports success exactly when the queue takes every message
  // of the block, exactly then does what the client received decode to the whole graph, and that tells
  // of every node and connection what the runtime and the modules say.
  lemma SnapshotRoundTrip(l: Limits, q: ResultQueue, log: seq<ResultAttempt>, number: nat, loaded: seq<LoadedNode>,
                          states: map<nat, RunState>, nodes: seq<Node>, connections: seq<Connection>)
    requires ValidIds(l, nodes) && l.lastCode != 0
    ensures var b := Block(l, number, loaded, states, nodes, connections);
      && (PushAll(q, log, b).1 <==> Takes(q, |log|, |b|))
      && var whole := Snapshot(l, loaded, states, nodes, connections);
      && (Decode(l, Arrived(q, log, b)) == Some(whole) <==> Takes(q, |log|, |b|))
      && Tells(l, loaded, states, nodes, connections, whole)
  {
    SnapshotDecodes(l, q, log, number, loaded, states, nodes, connections);
    SnapshotTells(l, loaded, states, nodes, connections);
  }

  // A block has one message for each entry of the graph, and the terminator.
  lemma BlockSize(l: Limits, number: nat, loaded: seq<LoadedNode>, states: map<nat, RunState>, nodes: seq<Node>,
                  connections: seq<Connection>)
    requires ValidIds(l, nodes) && l.lastCode != 0
    ensures |Block(l, number, loaded, states, nodes, connections)|
         == Size(Snapshot(l, loaded, states, nodes, connections)) + 1
  {
    NodesEncoded(l, number, loaded, states, nodes);
    ConnectionsEncoded(l, number, connections);
  }

  ghost predicate HasTerminator(l: Limits, ms: seq<Result>) {
    exists i :: 0 <= i < |ms| && IsDone(l, ms[i])
  }

  lemma {:induction false} DecodedIffTerminated(l: Limits, ms: seq<Result>)
    ensures Decode(l, ms).Some? <==> HasTerminator(l, ms)
  {
    if ms != [] {
      DecodedIffTerminated(l, ms[1..]);
      if HasTerminator(l, ms) && !IsDone(l, ms[0]) {
        var i :| 0 <= i < |ms| && IsDone(l, ms[i]);
        assert ms[1..][i - 1] == ms[i];
      }
    }
  }

  lemma {:induction false} ReceivedWerePushed(log: seq<ResultAttempt>, m: Result)
    requires m in Received(log)
    ensures exists i :: 0 <= i < |log| && log[i].result == m
  {
    if m in Received(log[..|log| - 1]) {
      ReceivedWerePushed(log[..|log| - 1], m);
      var i :| 0 <= i < |log| - 1 && log[..|log| - 1][i].result == m;
      assert log[i].result == m;
    } else {
      assert log[|log| - 1].result == m;
    }
  }

  // Reading what arrived of a block yields a graph exactly when the terminator was accepted.
  lemma FinishedIffTerminatorTaken(l: Limits, pushed: seq<ResultAttempt>)
    requires pushed != [] && IsDone(l, pushed[|pushed| - 1].result)
    requires forall i :: 0 <= i < |pushed| - 1 ==> !IsDone(l, pushed[i].result)
    ensures Decode(l, Received(pushed)).Some? <==> pushed[|pushed| - 1].accepted
  {
    var front, got := pushed[..|pushed| - 1], Received(pushed);
    DecodedIffTerminated(l, got);
    forall m | m in Received(front) ensures !IsDone(l, m) { ReceivedWerePushed(front, m); }
    if pushed[|pushed| - 1].accepted { assert IsDone(l, got[|got| - 1]); }
  }

  lemma TerminatorDecides(l: Limits, q: ResultQueue, log: seq<ResultAttempt>, b: seq<Result>)
    requires q.present && b != [] && IsDone(l, b[|b| - 1])
    requires forall i :: 0 <= i < |b| - 1 ==> !IsDone(l, b[i])
    ensures Decode(l, Arrived(q, log, b)).Some? <==> q.accepts(|log| + |b| - 1)
  {
    PushAllLogs(q, log, b);
    PushAllSucceedsIff(q, log, b);
    var pushed := PushAll(q, log, b).0[|log|..];
    forall i | 0 <= i < |pushed| ensures pushed[i].result == b[i] {}
    FinishedIffTerminatorTaken(l, pushed);
  }

  // A finished block is not always the whole graph. The client reads one exactly when the queue takes
  // the last push, the terminator; it is then too small exactly when an earlier push was refused.
  lemma PartialBlockLooksComplete(l: Limits, q: ResultQueue, log: seq<ResultAttempt>, number: nat,
                                  loaded: seq<LoadedNode>,
                                  states: map<nat, RunState>, nodes: seq<Node>, connections: seq<Connection>)
    requires ValidIds(l, nodes) && l.lastCode != 0 && q.present
    ensures var b := Block(l, number, loaded, states, nodes, connections);
      var last := |log| + |b| - 1;
      var whole, got := Snapshot(l, loaded, states, nodes, connections), Decode(l, Arrived(q, log, b));
      && (got.Some? <==> q.accepts(last))
      && (got.Some? && Size(got.value) < Size(whole) <==>
            q.accepts(last) && exists k :: |log| <= k < last && !q.accepts(k))
      && (got.Some? && got.value != whole ==> Size(got.value) < Size(whole))
  {
    var b := Block(l, number, loaded, states, nodes, connections);
    NodesEncoded(l, number, loaded, states, nodes);
    ConnectionsEncoded(l, number, connections);
    TerminatorDecides(l, q, log, b);
    SnapshotDecodes(l, q, log, number, loaded, states, nodes, connections);
    ArrivedWhole(q, log, b);
    DecodedSize(l, Arrived(q, log, b));
    BlockSize(l, number, loaded, states, nodes, connections);
  }

  // For instance: one node, whose push is refused, and a client that reads an empty graph.
  lemma RefusedNodeUnseen(l: Limits, d: Descriptor)
    requires l.invalidId != 0 && l.lastCode != 0
    ensures var q := ResultQueue(true, n => n != 0);
      var loaded, nodes := [LoadedNode(0, d)], [Node(0, d.name, FromLoader(0))];
      var ok := PushAll(q, [], Block(l, 7, loaded, map[], nodes, [])).1;
      && !ok && Decode(l, Arrived(q, [], Block(l, 7, loaded, map[], nodes, []))) == Some(Graph([], []))
      && |Snapshot(l, loaded, map[], nodes, []).nodes| == 1
  {
    var q := ResultQueue(true, n => n != 0);
    var loaded, nodes := [LoadedNode(0, d)], [Node(0, d.name, FromLoader(0))];
    var b := Block(l, 7, loaded, map[], nodes, []);
    assert NodeResults(l, 7, loaded, map[], nodes[..0]) == [] == ConnectionResults(l, 7, []);
    assert Get(loaded, d.name) == Some(loaded[0]);
    assert Described(l, loaded, map[], nodes[..0]) == [];
    assert |b| == 2 && b[1] == Done(l, 7);
    PartialBlockLooksComplete(l, q, [], 7, loaded, map[], nodes, []);
    assert |Snapshot(l, loaded, map[], nodes, []).nodes| == 1;
    SnapshotDecodes(l, q, [], 7, loaded, map[], nodes, []);
    assert !q.accepts(0) && q.accepts(1);
  }

  lemma {:induction false} NoQueue(q: ResultQueue, log: seq<ResultAttempt>, ms: seq<Result>)
    requires !q.present
    ensures PushAll(q, log, ms) == (log, ms == [])
  {
    if ms != [] { NoQueue(q, log, ms[..|ms| - 1]); }
  }

  ghost predicate AllLoaded(loaded: seq<LoadedNode>, nodes: seq<Node>) {
    forall k :: 0 <= k < |nodes| ==> Get(loaded, nodes[k].name).Some?
  }

  lemma {:induction false} NoNodeSkipped(l: Limits, loaded: seq<LoadedNode>, states: map<nat, RunState>,
                                         nodes: seq<Node>)
    requires AllLoaded(loaded, nodes)
    ensures var d := Described(l, loaded, states, nodes);
      && |d| == |nodes|
      && forall i :: 0 <= i < |nodes| ==> d[i] == Describe(l, states, nodes[i], Get(loaded, nodes[i].name).value)
  {
    if nodes != [] {
      var front := nodes[..|nodes| - 1];
      NoNodeSkipped(l, loaded, states, front);
      assert Get(loaded, nodes[|nodes| - 1].name).Some?;
      var d := Described(l, loaded, states, nodes);
      assert d == Described(l, loaded, states, front) + [d[|front|]];
    }
  }

  // In a graph built only through the engine every node is described, by its own descriptor.
  lemma EngineGraphIsComplete(r: State, l: Limits, states: map<nat, RunState>, i: nat)
    requires Valid(r) && (forall n :: n in r.nodes ==> n.origin.FromLoader?) && i < |r.nodes|
    ensures var n, d := r.nodes[i], Described(l, r.loaded, states, r.nodes);
      && |d| == |r.nodes|
      && Get(r.loaded, n.name).Some?
      && Get(r.loaded, n.name).value.loader == n.origin.loader
      && d[i].id == n.id && TellsState(l, states, n.id, d[i].code)
      && d[i].descriptor == Copy(l.room, Get(r.loaded, n.name).value.descriptor)
  {
    forall k | 0 <= k < |r.nodes| ensures Get(r.loaded, r.nodes[k].name).Some? { BackedNodeIsFound(r, r.nodes[k]); }
    BackedNodeIsFound(r, r.nodes[i]);
    NoNodeSkipped(l, r.loaded, states, r.nodes);
  }
}
