/**
 * The mixer (ColorMixer/ViewModels/MixerViewModel.cs): it owns the nodes and
 * the connections, runs the two-click connect handshake and cascades the
 * deletion of a node to its connections.
 */
module Mixer {
  import opened Wrappers
  import opened Model
  import opened ReactiveLists

  /** A point picked on the canvas. */
  datatype Point = Point(x: real, y: real)

  /** What a connection request gets back. The first request waits; the second
      completes the handshake and answers both requesters at once. */
  datatype HandshakeReply =
    | Waiting
    | Completed(toFirst: Option<Connector>, toSecond: Option<Connector>)

  /** A connection leads from an output connector to an input connector. */
  predicate WellDirected(c: Connection)
  {
    c.from.direction == Output && c.to.direction == Input
  }

  /** The connection that a pending connector and a second connector make, if any. */
  function Link(pending: Connector, second: Connector): (r: Option<Connection>)
    ensures r.Some? <==> pending.direction != second.direction
    ensures r.Some? ==> WellDirected(r.value)
    ensures r.Some? ==> {r.value.from, r.value.to} == {pending, second}
  {
    if pending.direction == Input && second.direction == Output then Some(Connection(second, pending))
    else if pending.direction == Output && second.direction == Input then Some(Connection(pending, second))
    else
      assert pending.direction == second.direction by {
        assert pending.direction.Input? || pending.direction.Output?;
      }
      None
  }

  /** `other as TDst`: a requester asks for a connector of the opposite direction
      and receives null when `other` is not one. */
  function Answer(requester: Connector, other: Connector): (r: Option<Connector>)
    ensures r.Some? <==> other.direction != requester.direction
    ensures r.Some? ==> r.value == other
  {
    if other.direction != requester.direction then Some(other) else None
  }

  function ToSeq(link: Option<Connection>): (s: seq<Connection>)
    ensures |s| <= 1
  {
    match link
    case Some(c) => [c]
    case None => []
  }

  /** Whether a connection has `n` at either end. */
  predicate Touches(c: Connection, n: Node)
  {
    c.to.node == n || c.from.node == n
  }

  /** The connections that have `n` at either end, in list order. */
  function Touching(cs: seq<Connection>, n: Node): (r: seq<Connection>)
    ensures forall c :: c in r ==> Touches(c, n)
    ensures forall c :: c in cs && Touches(c, n) ==> c in r
    ensures multiset(r) <= multiset(cs)
  {
    if cs == [] then []
    else
      var init, last := cs[..|cs| - 1], cs[|cs| - 1];
      assert cs == init + [last];
      Touching(init, n) + (if Touches(last, n) then [last] else [])
  }

  /** The connections that do not touch `n`, in list order. */
  function Untouched(cs: seq<Connection>, n: Node): (r: seq<Connection>)
    ensures forall c :: c in r ==> c in cs && !Touches(c, n)
    ensures forall c :: c in cs && !Touches(c, n) ==> c in r
  {
    if cs == [] then []
    else
      var init, last := cs[..|cs| - 1], cs[|cs| - 1];
      assert cs == init + [last];
      Untouched(init, n) + (if Touches(last, n) then [] else [last])
  }

  /** Every connector at either end of some connection in `cs`. */
  function Endpoints(cs: seq<Connection>): (r: set<Connector>)
    ensures forall c :: c in cs ==> c.from in r && c.to in r
  {
    if cs == [] then {}
    else
      var init, last := cs[..|cs| - 1], cs[|cs| - 1];
      assert cs == init + [last];
      Endpoints(init) + {last.from, last.to}
  }

  /** A connector is an endpoint exactly when some connection has it at one end. */
  lemma {:induction false} EndpointsMembers(cs: seq<Connection>, k: Connector)
    ensures k in Endpoints(cs) <==> exists c :: c in cs && (c.from == k || c.to == k)
  {
    if cs != [] {
      var init, last := cs[..|cs| - 1], cs[|cs| - 1];
      assert cs == init + [last];
      EndpointsMembers(init, k);
      if k in Endpoints(init) {
        var c :| c in init && (c.from == k || c.to == k);
        assert c in cs;
      }
    }
  }

  /** What the delete cascade does to `ConnectedTo`: both ends of every
      connection touching `n` lose their entry, and every other connector keeps
      its entry unchanged. */
  lemma DisconnectTouching(m: map<Connector, Connector>, cs: seq<Connection>, n: Node, k: Connector)
    ensures forall c :: c in cs && Touches(c, n) ==>
      c.from !in m - Endpoints(Touching(cs, n)) && c.to !in m - Endpoints(Touching(cs, n))
    ensures (forall c :: c in cs && Touches(c, n) ==> c.from != k && c.to != k) ==>
      (k in m - Endpoints(Touching(cs, n)) <==> k in m) &&
      (k in m ==> (m - Endpoints(Touching(cs, n)))[k] == m[k])
  {
    EndpointsMembers(Touching(cs, n), k);
  }

  /** Removing the connections that touch `n` (one occurrence per listed element)
      leaves exactly the others, in their original order. */
  lemma {:induction false} RemoveTouching(cs: seq<Connection>, n: Node)
    ensures RemoveAll(cs, Touching(cs, n)) == Untouched(cs, n)
  {
    if cs != [] {
      var init, last := cs[..|cs| - 1], cs[|cs| - 1];
      var touching, untouched := Touching(init, n), Untouched(init, n);
      assert cs == init + [last];
      RemoveTouching(init, n);
      RemoveAllAppend(init, [last], touching);
      assert RemoveAll(cs, touching) == untouched + [last];
      if Touches(last, n) {
        assert Touching(cs, n) == touching + [last];
        assert (touching + [last])[..|touching|] == touching;
        assert RemoveAll(cs, touching + [last]) == RemoveFirst(untouched + [last], last);
        RemoveFirstAppendNotIn(untouched, [last], last);
        assert untouched + [] == untouched;
        assert Untouched(cs, n) == untouched + [];
      } else {
        assert Touching(cs, n) == touching + [];
        assert touching + [] == touching;
        assert Untouched(cs, n) == untouched + [last];
      }
    }
  }

  class MixerViewModel {
    const nodes: ReactiveList<Node>
    const connections: ReactiveList<Connection>
    var connectingConnector: Option<Connector>
    var connectedConnector: Option<Connector>
    /** `ConnectedTo` of every connector; a connector that is not a key has
        `ConnectedTo == null`. */
    var connectedTo: map<Connector, Connector>

    /** Between requests no second connector is recorded, and every stored
        connection leads from an output to an input. */
    ghost predicate Valid()
      reads this, connections
    {
      && nodes as object != connections as object
      && connectedConnector.None?
      && forall c :: c in connections.items ==> WellDirected(c)
    }

    constructor()
      ensures Valid() && fresh(nodes) && fresh(connections)
      ensures nodes.items == [] && connections.items == []
      ensures connectingConnector.None? && connectedTo == map[]
    {
      nodes := new ReactiveList<Node>();
      connections := new ReactiveList<Connection>();
      connectingConnector, connectedConnector := None, None;
      connectedTo := map[];
    }

    /** One click of the connect gesture. The first click records the requester
        as the pending connector; the second builds at most one connection from
        the pending connector and the requester, answers both and clears the
        pending state. Connections between connectors of one node are not refused. */
    method HandleConnectionRequest(requester: Connector) returns (reply: HandshakeReply)
      requires Valid()
      modifies this, connections
      ensures Valid() && unchanged(nodes) && connectedTo == old(connectedTo)
      ensures old(connectingConnector).None? ==>
        && connectingConnector == Some(requester)
        && reply == Waiting
        && connections.items == old(connections.items)
      ensures old(connectingConnector).Some? ==>
        var pending := old(connectingConnector).value;
        && connectingConnector.None?
        && reply == Completed(Answer(pending, requester), Answer(requester, pending))
        && connections.items == old(connections.items) + ToSeq(Link(pending, requester))
    {
      if connectingConnector.None? {
        connectingConnector := Some(requester);
        reply := Waiting;
      } else {
        var pending := connectingConnector.value;
        connectedConnector := Some(requester);
        var toSecond := Answer(requester, pending);
        var from, to := None, None;
        if pending.direction == Input && requester.direction == Output {
          from, to := Some(requester), Some(pending);
        } else if pending.direction == Output && requester.direction == Input {
          from, to := Some(pending), Some(requester);
        }
        if from.Some? && to.Some? {
          connections.Add(Connection(from.value, to.value));
        }
        var toFirst := Answer(pending, connectedConnector.value);
        connectingConnector := None;
        connectedConnector := None;
        reply := Completed(toFirst, toSecond);
      }
    }

    /** The delete interaction's handler: every connection with `node` at either
        end is removed and both of its connectors are disconnected, then `node`
        is removed. Other nodes and connections keep their order. */
    method DeleteNode(node: Node)
      requires Valid()
      modifies this, nodes, connections
      ensures Valid()
      ensures connections.items == Untouched(old(connections.items), node)
      ensures nodes.items == RemoveFirst(old(nodes.items), node)
      ensures connectedTo == old(connectedTo) - Endpoints(Touching(old(connections.items), node))
      ensures connectingConnector == old(connectingConnector)
    {
      var connected := Touching(connections.items, node);
      for i := 0 to |connected|
        invariant connectedTo == old(connectedTo) - Endpoints(connected[..i])
        invariant connections.items == old(connections.items) && nodes.items == old(nodes.items)
        invariant connectingConnector == old(connectingConnector) && connectedConnector.None?
      {
        assert connected[..i + 1] == connected[..i] + [connected[i]];
        connectedTo := connectedTo - {connected[i].to};
        connectedTo := connectedTo - {connected[i].from};
      }
      assert connected[..|connected|] == connected;
      connections.RemoveRange(connected);
      RemoveTouching(old(connections.items), node);
      var _ := nodes.Remove(node);
    }

    /** The body of each add-node command: when a point was picked, the new node
        (supplied by the service locator) is placed there and appended; when the
        user cancelled, nothing happens. */
    method AddNode(point: Option<Point>, node: Node)
      requires Valid()
      modifies nodes, node
      ensures Valid()
      ensures point.None? ==> nodes.items == old(nodes.items) && node.x == old(node.x) && node.y == old(node.y)
      ensures point.Some? ==>
        nodes.items == old(nodes.items) + [node] && node.x == point.value.x && node.y == point.value.y
      ensures node.width == old(node.width) && node.height == old(node.height) && node.color == old(node.color)
    {
      if point.None? {
        return;
      }
      node.SetX(point.value.x);
      node.SetY(point.value.y);
      nodes.Add(node);
    }

    /** The `ConnectedTo` setter of a connector: None stands for null. */
    method SetConnectedTo(connector: Connector, target: Option<Connector>)
      requires Valid()
      modifies this
      ensures Valid() && connectingConnector == old(connectingConnector)
      ensures connectedTo == match target
                             case Some(t) => old(connectedTo)[connector := t]
                             case None => old(connectedTo) - {connector}
    {
      match target {
        case Some(t) => connectedTo := connectedTo[connector := t];
        case None => connectedTo := connectedTo - {connector};
      }
    }
  }

  /** Two clicks, input then output, as the connect gesture runs them: the first
      click waits, the second connects output to input and answers both. */
  method ConnectScenario(a: Node, b: Node)
  {
    var mixer := new MixerViewModel();
    var input := Connector(0, Input, a);
    var output := Connector(1, Output, b);
    var first := mixer.HandleConnectionRequest(input);
    assert first == Waiting && mixer.connectingConnector == Some(input);
    var second := mixer.HandleConnectionRequest(output);
    assert second == Completed(Some(output), Some(input));
    assert mixer.connections.items == [Connection(output, input)];
    assert mixer.connectingConnector.None?;
  }
}
