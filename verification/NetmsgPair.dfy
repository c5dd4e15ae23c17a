/**
Two nodes that relay SEND and RECEIVE rights to each other over a stream in each direction: what the
names mean on either side, over every run without teardown.
*/
module NetmsgPair {
  import opened Netmsg
  import opened NetmsgMaps

  type Side = x: nat | x < 2

  function Peer(i: Side): Side {
    1 - i
  }

  /** A port, by the node that did not get it from the other, and its name there. */
  datatype Ident = Ident(home: Side, name: Port)

  /** A port on its way, with the port that its sender meant. */
  datatype Packet = Packet(kind: TypeName, port: Port, meant: Ident)

  /** A name handed to a task on `side`, for a port that was `meant`. */
  datatype Delivery = Delivery(side: Side, name: Port, meant: Ident)

  /** `stream[i]` goes from node `i` to its peer. */
  datatype Pair = Pair(node: seq<Node>, stream: seq<seq<Packet>>, delivered: seq<Delivery>)

  ghost predicate TwoSided(s: Pair) {
    |s.node| == 2 && |s.stream| == 2
  }

  const StartPair := Pair([NewNode, NewNode], [[], []], [])

  /** The port that `name` stands for on node `i`. */
  function Meaning(n: Node, i: Side, name: Port): Ident {
    if name in n.byLocal then Ident(Peer(i), n.byLocal[name]) else Ident(i, name)
  }

  datatype Event =
    | Transmission(side: Side, kind: TypeName, name: Port)
    | Reception(side: Side, alloc: Port)

  predicate Name(p: Port) {
    0 < p < LOCAL_FLAG
  }

  ghost predicate Enabled(s: Pair, e: Event) {
    && TwoSided(s)
    && match e
       case Transmission(i, k, p) => (k.MoveSend? || k.MoveReceive?) && Name(p) && Transmit(s.node[i], k, p, false).Ok?
       case Reception(i, alloc) =>
         && s.stream[Peer(i)] != [] && Name(alloc) && Unused(s.node[i], alloc)
         && Translate(s.node[i], s.stream[Peer(i)][0].kind, s.stream[Peer(i)][0].port, alloc, NULL).Ok?
  }

  ghost function Step(s: Pair, e: Event): Pair
    requires Enabled(s, e)
  {
    match e
    case Transmission(i, k, p) =>
      var out := Transmit(s.node[i], k, p, false);
      Pair(s.node[i := out.node],
           s.stream[i := s.stream[i] + [Packet(k, out.port, Meaning(s.node[i], i, p))]],
           s.delivered)
    case Reception(i, alloc) =>
      var packet := s.stream[Peer(i)][0];
      var out := Translate(s.node[i], packet.kind, packet.port, alloc, NULL);
      Pair(s.node[i := out.node],
           s.stream[Peer(i) := s.stream[Peer(i)][1..]],
           s.delivered + [Delivery(i, out.port, packet.meant)])
  }

  ghost predicate Valid(s: Pair, evs: seq<Event>)
    decreases |evs|
  {
    evs == [] || (Enabled(s, evs[0]) && Valid(Step(s, evs[0]), evs[1..]))
  }

  ghost function Exec(s: Pair, evs: seq<Event>): Pair
    requires Valid(s, evs)
    decreases |evs|
  {
    if evs == [] then s else Exec(Step(s, evs[0]), evs[1..])
  }

  // ----- the invariant

  /** `p` is a port that `n` knows and did not get from its peer. */
  ghost predicate Native(n: Node, p: Port) {
    Name(p) && p in n.kind && p !in n.byLocal
  }

  /** Every proxy of `n` stands for a native port of its peer `m`. */
  ghost predicate ProxiesOk(n: Node, m: Node) {
    forall p | p in n.byLocal :: Name(p) && Native(m, n.byLocal[p])
  }

  /** A packet from `n` (node `i`) to `m` names a native port of either. */
  ghost predicate PacketOk(n: Node, m: Node, i: Side, x: Packet) {
    && (x.kind.MoveSend? || x.kind.MoveReceive?)
    && if x.port < LOCAL_FLAG then Native(n, x.port) && x.meant == Ident(i, x.port)
       else Native(m, Flip(x.port)) && x.meant == Ident(Peer(i), Flip(x.port))
  }

  ghost predicate SideOk(s: Pair, i: Side)
    requires TwoSided(s)
  {
    && Consistent(s.node[i]) && ProxiesOk(s.node[i], s.node[Peer(i)])
    && forall k :: 0 <= k < |s.stream[i]| ==> PacketOk(s.node[i], s.node[Peer(i)], i, s.stream[i][k])
  }

  ghost predicate DeliveryOk(s: Pair, d: Delivery)
    requires TwoSided(s)
  {
    && Meaning(s.node[d.side], d.side, d.name) == d.meant
    && (d.name in s.node[d.side].byLocal || Native(s.node[d.side], d.name))
  }

  ghost predicate Inv(s: Pair) {
    && TwoSided(s) && SideOk(s, 0) && SideOk(s, 1)
    && forall k :: 0 <= k < |s.delivered| ==> DeliveryOk(s, s.delivered[k])
  }

  /** `m` knows what `n` knew, and means the same by it. */
  ghost predicate Extends(n: Node, m: Node) {
    && n.kind.Keys <= m.kind.Keys
    && (forall p :: p in n.byLocal ==> p in m.byLocal && m.byLocal[p] == n.byLocal[p])
    && (forall p :: p in m.byLocal && p !in n.byLocal ==> p !in n.kind)
  }

  lemma TransmitExtends(n: Node, k: TypeName, p: Port)
    requires Consistent(n) && Name(p) && (k.MoveSend? || k.MoveReceive?) && Transmit(n, k, p, false).Ok?
    ensures var out := Transmit(n, k, p, false);
            && Extends(n, out.node) && Consistent(out.node) && out.node.byLocal == n.byLocal && p in out.node.kind
            && out.port == if p in n.byLocal then Flip(n.byLocal[p]) else p
  {
    TransmitKeeps(n, k, p, false, NULL);
  }

  /** What reception does: a flagged name is the node's own, and any other gets or has a proxy. */
  lemma TranslateExtends(n: Node, k: TypeName, p: Port, alloc: Port)
    requires Consistent(n) && Unused(n, alloc) && Name(alloc) && (k.MoveSend? || k.MoveReceive?)
    requires if p < LOCAL_FLAG then Name(p) else Native(n, Flip(p))
    requires Translate(n, k, p, alloc, NULL).Ok?
    ensures var out := Translate(n, k, p, alloc, NULL);
            && Extends(n, out.node) && Consistent(out.node)
            && (p >= LOCAL_FLAG ==> out.port == Flip(p) && out.node.byLocal == n.byLocal)
            && (p < LOCAL_FLAG ==> out.port in out.node.byLocal && out.node.byLocal[out.port] == p)
            && (forall q :: q in out.node.byLocal && q !in n.byLocal ==>
                 q == alloc && out.node.byLocal[q] == p && p < LOCAL_FLAG)
  {
    TranslateKeeps(n, k, p, alloc, NULL);
  }

  // ----- every step keeps it

  lemma ExtendsNative(n: Node, n': Node, p: Port)
    requires Extends(n, n') && Native(n, p)
    ensures Native(n', p)
  {
  }

  lemma ExtendsPacket(n: Node, n': Node, m: Node, m': Node, i: Side, x: Packet)
    requires PacketOk(n, m, i, x) && Extends(n, n') && Extends(m, m')
    ensures PacketOk(n', m', i, x)
  {
    if x.port < LOCAL_FLAG {
      ExtendsNative(n, n', x.port);
    } else {
      ExtendsNative(m, m', Flip(x.port));
    }
  }

  /** Node `i` learns something; what was on the streams and delivered stays right. */
  lemma Learn(s: Pair, i: Side, n: Node)
    requires Inv(s) && Extends(s.node[i], n) && Consistent(n) && ProxiesOk(n, s.node[Peer(i)])
    ensures Inv(s.(node := s.node[i := n]))
  {
    var t := s.(node := s.node[i := n]);
    var j := Peer(i);
    assert Extends(s.node[j], s.node[j]);
    forall p | p in s.node[j].byLocal ensures Native(n, s.node[j].byLocal[p]) {
      ExtendsNative(s.node[i], n, s.node[j].byLocal[p]);
    }
    forall k | 0 <= k < |s.stream[i]| ensures PacketOk(n, s.node[j], i, s.stream[i][k]) {
      ExtendsPacket(s.node[i], n, s.node[j], s.node[j], i, s.stream[i][k]);
    }
    forall k | 0 <= k < |s.stream[j]| ensures PacketOk(s.node[j], n, j, s.stream[j][k]) {
      ExtendsPacket(s.node[j], s.node[j], s.node[i], n, j, s.stream[j][k]);
    }
    assert SideOk(t, i) && SideOk(t, j);
    forall k | 0 <= k < |t.delivered| ensures DeliveryOk(t, t.delivered[k]) {
      assert DeliveryOk(s, s.delivered[k]);
    }
  }

  lemma TransmissionKeeps(s: Pair, i: Side, k: TypeName, p: Port)
    requires Inv(s) && Enabled(s, Transmission(i, k, p))
    ensures Inv(Step(s, Transmission(i, k, p)))
  {
    TransmitExtends(s.node[i], k, p);
    var out := Transmit(s.node[i], k, p, false);
    Learn(s, i, out.node);
    var m := s.(node := s.node[i := out.node]);
    var x := Packet(k, out.port, Meaning(s.node[i], i, p));
    assert PacketOk(m.node[i], m.node[Peer(i)], i, x);
    var t := Step(s, Transmission(i, k, p));
    forall d | 0 <= d < |t.delivered| ensures DeliveryOk(t, t.delivered[d]) {
      assert DeliveryOk(m, m.delivered[d]);
    }
    assert SideOk(m, 0) && SideOk(m, 1);
    assert SideOk(t, i) && SideOk(t, Peer(i));
  }

  lemma ReceptionKeeps(s: Pair, i: Side, alloc: Port)
    requires Inv(s) && Enabled(s, Reception(i, alloc))
    ensures Inv(Step(s, Reception(i, alloc)))
  {
    var j := Peer(i);
    var x := s.stream[j][0];
    assert SideOk(s, j) && SideOk(s, i) && PacketOk(s.node[j], s.node[i], j, x);
    TranslateExtends(s.node[i], x.kind, x.port, alloc);
    var out := Translate(s.node[i], x.kind, x.port, alloc, NULL);
    Learn(s, i, out.node);
    var m := s.(node := s.node[i := out.node]);
    var t := Step(s, Reception(i, alloc));
    var d := Delivery(i, out.port, x.meant);
    if x.port >= LOCAL_FLAG {
      ExtendsNative(s.node[i], out.node, Flip(x.port));
    }
    assert DeliveryOk(t, d);
    forall k | 0 <= k < |t.delivered| ensures DeliveryOk(t, t.delivered[k]) {
      assert k < |s.delivered| ==> DeliveryOk(m, m.delivered[k]);
    }
    assert SideOk(m, i) && SideOk(m, j);
    assert SideOk(t, i) && SideOk(t, j);
  }

  lemma {:induction false} RunKeeps(s: Pair, evs: seq<Event>)
    requires Inv(s) && Valid(s, evs)
    ensures Inv(Exec(s, evs))
    decreases |evs|
  {
    if evs != [] {
      match evs[0] {
        case Transmission(i, k, p) => TransmissionKeeps(s, i, k, p);
        case Reception(i, alloc) => ReceptionKeeps(s, i, alloc);
      }
      RunKeeps(Step(s, evs[0]), evs[1..]);
    }
  }

  /** No two local ports stand for the same port of the peer. */
  ghost predicate OneProxyEach(n: Node) {
    forall p, q :: p in n.byLocal && q in n.byLocal && n.byLocal[p] == n.byLocal[q] ==> p == q
  }

  /** Over every run, each name delivered means what its sender meant by the one it sent; a port that
      comes back to its home has its original name there; each port of the peer has at most one proxy;
      and no proxy stands for a proxy. */
  lemma RightsKeepTheirMeaning(evs: seq<Event>)
    requires Valid(StartPair, evs)
    ensures var s := Exec(StartPair, evs);
            && |s.node| == 2
            && (forall k :: 0 <= k < |s.delivered| ==>
                  var d := s.delivered[k];
                  && Meaning(s.node[d.side], d.side, d.name) == d.meant
                  && (d.meant.home == d.side ==> d.name == d.meant.name))
            && OneProxyEach(s.node[0]) && OneProxyEach(s.node[1])
            && (forall i: Side, p :: p in s.node[i].byLocal ==> s.node[i].byLocal[p] !in s.node[Peer(i)].byLocal)
  {
    RunKeeps(StartPair, evs);
    var s := Exec(StartPair, evs);
    assert forall i: Side :: SideOk(s, i);
    forall i: Side, p | p in s.node[i].byLocal ensures s.node[i].byLocal[p] !in s.node[Peer(i)].byLocal {
      assert SideOk(s, i) && Native(s.node[Peer(i)], s.node[i].byLocal[p]);
    }
    forall k | 0 <= k < |s.delivered|
      ensures var d := s.delivered[k];
              Meaning(s.node[d.side], d.side, d.name) == d.meant && (d.meant.home == d.side ==> d.name == d.meant.name)
    {
      assert DeliveryOk(s, s.delivered[k]);
    }
    assert SideOk(s, 0) && SideOk(s, 1);
  }

  // ----- rights that cannot follow

  /** Node 0 sends the receive right of its port 5, and then a send right for it; whatever name the kernel
      hands out, node 1 halts on the second. */
  lemma PeerIsStopped() returns (evs: seq<Event>)
    ensures Valid(StartPair, evs)
    ensures var s := Exec(StartPair, evs);
            && |s.node| == 2 && |s.stream| == 2 && s.stream[0] != []
            && forall alloc :: Translate(s.node[1], s.stream[0][0].kind, s.stream[0][0].port, alloc, NULL).Halt?
  {
    var e0, e1, e2 := Transmission(0, MoveReceive, 5), Reception(1, 7), Transmission(0, MoveSend, 5);
    var s1 := Step(StartPair, e0);
    assert s1.stream[0] == [Packet(MoveReceive, 5, Ident(0, 5))] && s1.node[1] == NewNode && s1.stream[1] == [];
    var s2 := Step(s1, e1);
    assert s2.stream[0] == [] && s2.node[1] == AddProxy(NewNode, 5, 7, Send) && s2.node[0] == s1.node[0];
    var s3 := Step(s2, e2);
    assert s3.stream[0] == [Packet(MoveSend, 5, Ident(0, 5))] && s3.node[1] == s2.node[1];
    evs := [e0, e1, e2];
    assert evs[1..] == [e1, e2] && [e1, e2][1..] == [e2] && [e2][1..] == [];
    assert Valid(s3, []) && Exec(s3, []) == s3;
    assert Valid(s2, [e2]) && Exec(s2, [e2]) == s3;
    assert Valid(s1, [e1, e2]) && Exec(s1, [e1, e2]) == s3;
    assert Valid(StartPair, evs) && Exec(StartPair, evs) == s3;
  }

  /** Node 0 sends the receive right of its port 5, and node 1 sends a send right for the proxy it made: node 1
      halts itself. */
  lemma SenderIsStopped() returns (evs: seq<Event>)
    ensures Valid(StartPair, evs)
    ensures var s := Exec(StartPair, evs); |s.node| == 2 && Transmit(s.node[1], MoveSend, 7, false).Halt?
  {
    var e0, e1 := Transmission(0, MoveReceive, 5), Reception(1, 7);
    var s1 := Step(StartPair, e0);
    assert s1.stream[0] == [Packet(MoveReceive, 5, Ident(0, 5))] && s1.node[1] == NewNode;
    var s2 := Step(s1, e1);
    assert s2.node[1] == AddProxy(NewNode, 5, 7, Send);
    evs := [e0, e1];
    assert evs[1..] == [e1] && [e1][1..] == [];
    assert Valid(s2, []) && Exec(s2, []) == s2;
    assert Valid(s1, [e1]) && Exec(s1, [e1]) == s2;
  }
}
