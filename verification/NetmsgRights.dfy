/**
When relaying rights between two nodes is safe.  A port has one receive right, which is with its home
node's tasks, on its way, or with the peer's tasks; netmsg's maps do not follow it closely enough for
every send right.
*/
module NetmsgRights {
  import opened Netmsg
  import NetmsgMaps
  import opened NetmsgPair

  /** Where the receive right of a port is: with the tasks of its home node, on its way from there, with the
      tasks of the peer, or on its way back. */
  datatype Place = AtHome | Leaving | Away | Returning

  datatype Tracked = Tracked(pair: Pair, place: map<Ident, Place>)

  const StartTracked := Tracked(StartPair, map[])

  function PlaceOf(t: Tracked, x: Ident): Place {
    if x in t.place then t.place[x] else AtHome
  }

  // ----- the rules

  /** Side `i` may send a send right for `x`: from home while the receive right is there, and from a proxy
      unless the proxy's own side has the receive right. */
  predicate MaySend(t: Tracked, i: Side, x: Ident) {
    if x.home == i then PlaceOf(t, x).AtHome? else !PlaceOf(t, x).Away?
  }

  /** Side `i` has the receive right of `x`. */
  predicate HasReceive(t: Tracked, i: Side, x: Ident) {
    if x.home == i then PlaceOf(t, x).AtHome? else PlaceOf(t, x).Away?
  }

  /** Receive rights are sent by the side that has them, and send rights as the rule says.  Nothing is said
      here of assertions. */
  ghost predicate Proper(t: Tracked, e: Event) {
    && TwoSided(t.pair)
    && match e
       case Transmission(i, k, p) =>
         && Name(p)
         && var x := Meaning(t.pair.node[i], i, p);
            (k.MoveSend? && MaySend(t, i, x)) || (k.MoveReceive? && HasReceive(t, i, x))
       case Reception(i, alloc) =>
           t.pair.stream[Peer(i)] != [] && Name(alloc) && NetmsgMaps.Unused(t.pair.node[i], alloc)
  }

  ghost function Moved(t: Tracked, e: Event): map<Ident, Place>
    requires Enabled(t.pair, e)
  {
    match e
    case Transmission(i, k, p) =>
      var x := Meaning(t.pair.node[i], i, p);
      if k.MoveReceive? then t.place[x := if x.home == i then Leaving else Returning] else t.place
    case Reception(i, _) =>
      var packet := t.pair.stream[Peer(i)][0];
      if packet.kind.MoveReceive? then t.place[packet.meant := if packet.meant.home == i then AtHome else Away]
        else t.place
  }

  ghost function Go(t: Tracked, e: Event): Tracked
    requires Enabled(t.pair, e)
  {
    Tracked(Step(t.pair, e), Moved(t, e))
  }

  /** The run keeps to the rules as long as no assertion stops it. */
  ghost predicate ProperRun(t: Tracked, evs: seq<Event>)
    decreases |evs|
  {
    evs == [] || (Proper(t, evs[0]) && (Enabled(t.pair, evs[0]) ==> ProperRun(Go(t, evs[0]), evs[1..])))
  }

  // ----- packets for one port on a stream

  predicate IsReceive(s: seq<Packet>, n: int, port: Port) {
    0 <= n < |s| && s[n].kind.MoveReceive? && s[n].port == port
  }

  predicate IsAbout(s: seq<Packet>, n: int, port: Port) {
    0 <= n < |s| && s[n].port == port
  }

  ghost predicate NoReceive(s: seq<Packet>, port: Port) {
    forall n :: !IsReceive(s, n, port)
  }

  ghost predicate Nothing(s: seq<Packet>, port: Port) {
    forall n :: !IsAbout(s, n, port)
  }

  /** One receive right, and after it nothing for the port. */
  ghost predicate EndsInReceive(s: seq<Packet>, port: Port) {
    exists n :: EndsAt(s, n, port)
  }

  ghost predicate EndsAt(s: seq<Packet>, n: int, port: Port) {
    IsReceive(s, n, port) && forall m :: IsAbout(s, m, port) && m != n ==> m < n && !IsReceive(s, m, port)
  }

  ghost predicate OneReceive(s: seq<Packet>, port: Port) {
    exists n :: OneAt(s, n, port)
  }

  ghost predicate OneAt(s: seq<Packet>, n: int, port: Port) {
    IsReceive(s, n, port) && forall m :: IsReceive(s, m, port) ==> m == n
  }

  /** The same packets for the port. */
  ghost predicate SameAbout(s: seq<Packet>, r: seq<Packet>, port: Port) {
    && (NoReceive(s, port) ==> NoReceive(r, port)) && (Nothing(s, port) ==> Nothing(r, port))
    && (EndsInReceive(s, port) ==> EndsInReceive(r, port)) && (OneReceive(s, port) ==> OneReceive(r, port))
  }

  lemma PushOther(s: seq<Packet>, x: Packet, port: Port)
    requires x.port != port
    ensures SameAbout(s, s + [x], port)
  {
    var r := s + [x];
    assert forall n :: IsAbout(r, n, port) <==> IsAbout(s, n, port);
    assert forall n :: IsReceive(r, n, port) <==> IsReceive(s, n, port);
    assert forall n :: EndsAt(s, n, port) ==> EndsAt(r, n, port);
    assert forall n :: OneAt(s, n, port) ==> OneAt(r, n, port);
  }

  /** Packets move up by one when the first, not a receive right for the port, is taken. */
  lemma PopEnds(s: seq<Packet>, port: Port)
    requires s != [] && !IsReceive(s, 0, port) && EndsInReceive(s, port)
    ensures EndsInReceive(s[1..], port)
  {
    var n :| EndsAt(s, n, port);
    forall m | IsAbout(s[1..], m, port) && m != n - 1 ensures m < n - 1 && !IsReceive(s[1..], m, port) {
      assert IsAbout(s, m + 1, port);
    }
    assert EndsAt(s[1..], n - 1, port);
  }

  lemma PopOne(s: seq<Packet>, port: Port)
    requires s != [] && !IsReceive(s, 0, port) && OneReceive(s, port)
    ensures OneReceive(s[1..], port)
  {
    var n :| OneAt(s, n, port);
    forall m | IsReceive(s[1..], m, port) ensures m == n - 1 {
      assert IsReceive(s, m + 1, port);
    }
    assert OneAt(s[1..], n - 1, port);
  }

  lemma PopFewer(s: seq<Packet>, port: Port)
    requires s != []
    ensures NoReceive(s, port) ==> NoReceive(s[1..], port)
    ensures Nothing(s, port) ==> Nothing(s[1..], port)
  {
    assert forall n :: IsAbout(s[1..], n, port) ==> IsAbout(s, n + 1, port);
    assert forall n :: IsReceive(s[1..], n, port) ==> IsReceive(s, n + 1, port);
  }

  lemma PopOther(s: seq<Packet>, port: Port)
    requires s != [] && s[0].port != port
    ensures SameAbout(s, s[1..], port)
  {
    PopFewer(s, port);
    if EndsInReceive(s, port) {
      PopEnds(s, port);
    }
    if OneReceive(s, port) {
      PopOne(s, port);
    }
  }

  lemma PushSend(s: seq<Packet>, x: Packet)
    requires x.kind.MoveSend?
    ensures NoReceive(s, x.port) ==> NoReceive(s + [x], x.port)
    ensures OneReceive(s, x.port) ==> OneReceive(s + [x], x.port)
  {
    var r := s + [x];
    assert forall n :: IsReceive(r, n, x.port) <==> IsReceive(s, n, x.port);
    assert forall n :: OneAt(s, n, x.port) ==> OneAt(r, n, x.port);
  }

  lemma PushReceive(s: seq<Packet>, x: Packet)
    requires x.kind.MoveReceive? && NoReceive(s, x.port)
    ensures EndsInReceive(s + [x], x.port) && OneReceive(s + [x], x.port)
  {
    var r := s + [x];
    assert IsReceive(r, |s|, x.port);
    assert forall n :: n != |s| ==> (IsReceive(r, n, x.port) <==> IsReceive(s, n, x.port));
    assert EndsAt(r, |s|, x.port) && OneAt(r, |s|, x.port);
  }

  lemma PopSend(s: seq<Packet>)
    requires s != [] && s[0].kind.MoveSend?
    ensures var p := s[0].port;
            && (NoReceive(s, p) ==> NoReceive(s[1..], p)) && (EndsInReceive(s, p) ==> EndsInReceive(s[1..], p))
            && (OneReceive(s, p) ==> OneReceive(s[1..], p))
  {
    var p := s[0].port;
    PopFewer(s, p);
    if EndsInReceive(s, p) {
      PopEnds(s, p);
    }
    if OneReceive(s, p) {
      PopOne(s, p);
    }
  }

  lemma PopReceive(s: seq<Packet>)
    requires s != [] && s[0].kind.MoveReceive?
    ensures var p := s[0].port;
            (EndsInReceive(s, p) ==> Nothing(s[1..], p)) && (OneReceive(s, p) ==> NoReceive(s[1..], p))
  {
    var p := s[0].port;
    assert IsReceive(s, 0, p) && IsAbout(s, 0, p);
    assert forall n :: IsAbout(s[1..], n, p) ==> IsAbout(s, n + 1, p);
    assert forall n :: IsReceive(s[1..], n, p) ==> IsReceive(s, n + 1, p);
    if EndsInReceive(s, p) {
      var n :| EndsAt(s, n, p);
      assert n == 0;
    }
    if OneReceive(s, p) {
      var n :| OneAt(s, n, p);
      assert n == 0;
    }
  }

  // ----- the invariant

  /** The proxies of `n` for port `p` of the peer are of kind `k`. */
  ghost predicate ProxyIs(n: Node, p: Port, k: Kind) {
    forall q :: q in n.byLocal && n.byLocal[q] == p ==> KindOf(n, q) == k
  }

  /** What there is for port `p` of node `n`, with peer `m`: `out` is the stream to the peer, on which the port
      has its own name, and `back` the stream from it, on which the name is flagged. */
  ghost predicate RightOk(n: Node, m: Node, out: seq<Packet>, back: seq<Packet>, p: Port, place: Place) {
    && (!place.AtHome? ==> KindOf(n, p) == Receive && p !in n.byLocal)
    && match place
       case AtHome => NoReceive(out, p) && NoReceive(back, Flip(p)) && ProxyIs(m, p, Receive)
       case Leaving => EndsInReceive(out, p) && NoReceive(back, Flip(p)) && ProxyIs(m, p, Receive)
       case Away => Nothing(out, p) && NoReceive(back, Flip(p)) && ProxyIs(m, p, Send) && p in m.byRemote
       case Returning => Nothing(out, p) && OneReceive(back, Flip(p)) && ProxyIs(m, p, Receive)
  }

  ghost predicate Right(t: Tracked, i: Side, p: Port)
    requires TwoSided(t.pair)
  {
    RightOk(t.pair.node[i], t.pair.node[Peer(i)], t.pair.stream[i], t.pair.stream[Peer(i)], p, PlaceOf(t, Ident(i, p)))
  }

  ghost predicate RightsInv(t: Tracked) {
    Inv(t.pair) && forall i: Side, p: Port :: Name(p) ==> Right(t, i, p)
  }

  // ----- nothing halts

  lemma ProperTransmits(t: Tracked, i: Side, k: TypeName, p: Port)
    requires RightsInv(t) && Proper(t, Transmission(i, k, p))
    ensures Enabled(t.pair, Transmission(i, k, p))
  {
    var n := t.pair.node[i];
    if p in n.byLocal {
      assert SideOk(t.pair, i);
      assert Right(t, Peer(i), n.byLocal[p]);
    }
  }

  lemma ProperReceives(t: Tracked, i: Side, alloc: Port)
    requires RightsInv(t) && Proper(t, Reception(i, alloc))
    ensures Enabled(t.pair, Reception(i, alloc))
  {
    var j := Peer(i);
    var x := t.pair.stream[j][0];
    var n := t.pair.node[i];
    assert SideOk(t.pair, j) && SideOk(t.pair, i) && PacketOk(t.pair.node[j], n, j, x);
    assert IsAbout(t.pair.stream[j], 0, x.port);
    assert x.kind.MoveReceive? ==> IsReceive(t.pair.stream[j], 0, x.port);
    if x.port < LOCAL_FLAG {
      assert Right(t, j, x.port);
      PlainArrives(n, t.pair.node[j], t.pair.stream[j], t.pair.stream[i], x, PlaceOf(t, Ident(j, x.port)), alloc);
    } else {
      assert Right(t, i, Flip(x.port));
    }
  }

  lemma PlainArrives(n: Node, home: Node, out: seq<Packet>, back: seq<Packet>, x: Packet, place: Place, alloc: Port)
    requires NetmsgMaps.Consistent(n) && RightOk(home, n, out, back, x.port, place) && out != [] && out[0] == x
    requires Name(x.port) && (x.kind.MoveSend? || x.kind.MoveReceive?)
    ensures Translate(n, x.kind, x.port, alloc, NULL).Ok?
  {
    assert IsAbout(out, 0, x.port);
    assert x.kind.MoveReceive? ==> IsReceive(out, 0, x.port);
    if x.port in n.byRemote {
      var q := n.byRemote[x.port];
      assert q in n.byLocal && n.byLocal[q] == x.port;
    }
  }

  // ----- transmission keeps the invariant

  /** Sent from home: the port has its own name on the stream. */
  lemma SentFromHome(n: Node, m: Node, out: seq<Packet>, back: seq<Packet>, p: Port, k: TypeName, place: Place,
      x: Packet)
    requires RightOk(n, m, out, back, p, place) && place.AtHome? && p !in n.byLocal && Name(p)
    requires (k.MoveSend? || k.MoveReceive?) && x.kind == k && x.port == p
    ensures var n' := SetKind(n, p, if k.MoveSend? then Send else Receive);
            RightOk(n', m, out + [x], back, p, if k.MoveReceive? then Leaving else place)
  {
    if k.MoveSend? {
      PushSend(out, x);
    } else {
      PushReceive(out, x);
    }
  }

  /** Sent from a proxy: the name is flagged. */
  lemma SentFromProxy(n: Node, m: Node, out: seq<Packet>, back: seq<Packet>, p: Port, k: TypeName, place: Place,
      x: Packet, q: Port)
    requires RightOk(n, m, out, back, p, place) && q in m.byLocal && m.byLocal[q] == p
    requires NetmsgMaps.Consistent(m) && x.kind == k && x.port == Flip(p)
    requires if k.MoveSend? then !place.Away? else k.MoveReceive? && place.Away?
    ensures var m' := if k.MoveReceive? then SetKind(m, q, Receive) else m;
            RightOk(n, m', out, back + [x], p, if k.MoveReceive? then Returning else place)
  {
    if k.MoveSend? {
      PushSend(back, x);
    } else {
      PushReceive(back, x);
    }
  }

  /** A port that is not concerned: the kind of one other port may change, and a packet that is not about it
      may be added to either stream. */
  lemma Unconcerned(n: Node, m: Node, out: seq<Packet>, back: seq<Packet>, p: Port, place: Place,
                    n': Node, m': Node, out': seq<Packet>, back': seq<Packet>)
    requires RightOk(n, m, out, back, p, place)
    requires SameAbout(out, out', p) && SameAbout(back, back', Flip(p))
    requires KindOf(n', p) == KindOf(n, p) || place.AtHome?
    requires p in n'.byLocal ==> p in n.byLocal || place.AtHome?
    requires m.byRemote.Keys <= m'.byRemote.Keys
    requires forall q :: q in m'.byLocal && m'.byLocal[q] == p ==>
      q in m.byLocal && m.byLocal[q] == p && KindOf(m', q) == KindOf(m, q)
    ensures RightOk(n', m', out', back', p, place)
  {
  }

  lemma SameStream(s: seq<Packet>, p: Port)
    ensures SameAbout(s, s, p)
  {
  }

  lemma FlipsDiffer(p: Port, q: Port)
    ensures Flip(p) == Flip(q) <==> p == q
    ensures p < LOCAL_FLAG <==> Flip(p) >= LOCAL_FLAG
  {
  }

  lemma TransmissionRights(t: Tracked, i: Side, k: TypeName, p: Port, a: Side, r: Port)
    requires RightsInv(t) && Proper(t, Transmission(i, k, p)) && Enabled(t.pair, Transmission(i, k, p)) && Name(r)
    ensures Right(Go(t, Transmission(i, k, p)), a, r)
  {
    var e := Transmission(i, k, p);
    var u := Go(t, e);
    var s, s' := t.pair, u.pair;
    var x := Meaning(s.node[i], i, p);
    var packet := s'.stream[i][|s.stream[i]|];
    assert SideOk(s, 0) && SideOk(s, 1) && Right(t, a, r);
    assert s'.stream[i] == s.stream[i] + [packet] && s'.stream[Peer(i)] == s.stream[Peer(i)];
    FlipsDiffer(r, x.name);
    if Ident(a, r) == x {
      if a == i {
        SentFromHome(s.node[i], s.node[Peer(i)], s.stream[i], s.stream[Peer(i)], r, k, PlaceOf(t, x), packet);
      } else {
        SentFromProxy(s.node[a], s.node[i], s.stream[a], s.stream[i], r, k, PlaceOf(t, x), packet, p);
      }
    } else {
      OtherTransmission(t, e, a, r, packet);
    }
  }

  /** Transmission changes the kind of the port it names, and nothing else. */
  lemma TransmitElsewhere(n: Node, k: TypeName, name: Port, p: Port)
    requires (k.MoveSend? || k.MoveReceive?) && Transmit(n, k, name, false).Ok? && name != p
    ensures var n' := Transmit(n, k, name, false).node;
            n'.byLocal == n.byLocal && n'.byRemote == n.byRemote && KindOf(n', p) == KindOf(n, p)
  {
  }

  lemma OtherTransmission(t: Tracked, e: Event, a: Side, r: Port, packet: Packet)
    requires RightsInv(t) && e.Transmission? && Enabled(t.pair, e) && Name(r)
    requires Ident(a, r) != Meaning(t.pair.node[e.side], e.side, e.name)
    requires packet == Packet(e.kind, Transmit(t.pair.node[e.side], e.kind, e.name, false).port,
                              Meaning(t.pair.node[e.side], e.side, e.name))
    ensures Right(Go(t, e), a, r)
  {
    var i, b := e.side, Peer(a);
    var s := t.pair;
    assert SideOk(s, 0) && SideOk(s, 1) && Right(t, a, r);
    if a == i {
      HomeUnconcerned(s.node[a], s.node[b], s.stream[a], s.stream[b], r, PlaceOf(t, Ident(a, r)), e.kind, e.name,
        packet);
    } else {
      FlipsDiffer(r, Flip(packet.port));
      PeerUnconcerned(s.node[a], s.node[b], s.stream[a], s.stream[b], r, PlaceOf(t, Ident(a, r)), e.kind, e.name,
        packet);
    }
  }

  lemma HomeUnconcerned(n: Node, m: Node, out: seq<Packet>, back: seq<Packet>, r: Port, place: Place,
                        k: TypeName, name: Port, x: Packet)
    requires RightOk(n, m, out, back, r, place) && (k.MoveSend? || k.MoveReceive?) && Transmit(n, k, name, false).Ok?
    requires x.port != r && (name == r ==> r in n.byLocal)
    ensures RightOk(Transmit(n, k, name, false).node, m, out + [x], back, r, place)
  {
    if name != r {
      TransmitElsewhere(n, k, name, r);
    }
    PushOther(out, x, r);
    SameStream(back, Flip(r));
    Unconcerned(n, m, out, back, r, place, Transmit(n, k, name, false).node, m, out + [x], back);
  }

  lemma PeerUnconcerned(n: Node, m: Node, out: seq<Packet>, back: seq<Packet>, r: Port, place: Place,
                        k: TypeName, name: Port, x: Packet)
    requires RightOk(n, m, out, back, r, place) && (k.MoveSend? || k.MoveReceive?) && Transmit(m, k, name, false).Ok?
    requires x.port != Flip(r) && !(name in m.byLocal && m.byLocal[name] == r)
    ensures RightOk(n, Transmit(m, k, name, false).node, out, back + [x], r, place)
  {
    var m' := Transmit(m, k, name, false).node;
    forall q | q in m'.byLocal && m'.byLocal[q] == r ensures q in m.byLocal && m.byLocal[q] == r &&
      KindOf(m', q) == KindOf(m, q) {
      TransmitElsewhere(m, k, name, q);
    }
    PushOther(back, x, Flip(r));
    SameStream(out, r);
    Unconcerned(n, m, out, back, r, place, n, m', out, back + [x]);
  }

  // ----- reception keeps the invariant

  /** A flagged name comes home. */
  lemma ComesHome(n: Node, m: Node, out: seq<Packet>, back: seq<Packet>, p: Port, place: Place)
    requires RightOk(n, m, out, back, p, place) && back != [] && back[0].port == Flip(p)
    requires back[0].kind.MoveSend? || back[0].kind.MoveReceive?
    ensures back[0].kind.MoveSend? ==> RightOk(SetKind(n, p, KindOf(n, p)), m, out, back[1..], p, place)
    ensures back[0].kind.MoveReceive? ==> RightOk(SetKind(n, p, Send), m, out, back[1..], p, AtHome)
  {
    if back[0].kind.MoveSend? {
      PopSend(back);
    } else {
      assert IsReceive(back, 0, Flip(p));
      PopReceive(back);
      assert forall k :: IsReceive(out, k, p) ==> IsAbout(out, k, p);
    }
  }

  /** The port's own name comes to the peer. */
  lemma ComesToPeer(n: Node, m: Node, out: seq<Packet>, back: seq<Packet>, p: Port, place: Place, alloc: Port)
    requires RightOk(n, m, out, back, p, place) && out != [] && out[0].port == p && Name(p)
    requires NetmsgMaps.Consistent(m) && NetmsgMaps.Unused(m, alloc)
    requires out[0].kind.MoveSend? || out[0].kind.MoveReceive?
    requires Translate(m, out[0].kind, p, alloc, NULL).Ok?
    ensures RightOk(n, Translate(m, out[0].kind, p, alloc, NULL).node, out[1..], back, p,
                    if out[0].kind.MoveReceive? then Away else place)
  {
    assert IsAbout(out, 0, p);
    if out[0].kind.MoveSend? {
      PopSend(out);
    } else {
      assert IsReceive(out, 0, p);
      PopReceive(out);
    }
  }

  lemma ReceptionRights(t: Tracked, i: Side, alloc: Port, a: Side, r: Port)
    requires RightsInv(t) && Enabled(t.pair, Reception(i, alloc)) && Name(r)
    ensures Right(Go(t, Reception(i, alloc)), a, r)
  {
    var e := Reception(i, alloc);
    var u, j := Go(t, e), Peer(i);
    var s, s' := t.pair, u.pair;
    var x := s.stream[j][0];
    assert SideOk(s, 0) && SideOk(s, 1) && Right(t, a, r) && PacketOk(s.node[j], s.node[i], j, x);
    assert s'.stream[j] == s.stream[j][1..] && s'.stream[i] == s.stream[i];
    if Ident(a, r) != x.meant {
      OtherReception(t, i, alloc, a, r);
    } else if x.port < LOCAL_FLAG {
      ComesToPeer(s.node[j], s.node[i], s.stream[j], s.stream[i], r, PlaceOf(t, x.meant), alloc);
    } else {
      ComesHome(s.node[i], s.node[j], s.stream[i], s.stream[j], r, PlaceOf(t, x.meant));
    }
  }

  lemma OtherReception(t: Tracked, i: Side, alloc: Port, a: Side, r: Port)
    requires RightsInv(t) && Enabled(t.pair, Reception(i, alloc)) && Name(r)
    requires Ident(a, r) != t.pair.stream[Peer(i)][0].meant
    ensures Right(Go(t, Reception(i, alloc)), a, r)
  {
    var e, b, j := Reception(i, alloc), Peer(a), Peer(i);
    var s, s' := t.pair, Go(t, e).pair;
    var x := s.stream[j][0];
    assert SideOk(s, 0) && SideOk(s, 1) && Right(t, a, r) && PacketOk(s.node[j], s.node[i], j, x);
    SameStream(s.stream[a], r);
    SameStream(s.stream[b], Flip(r));
    FlipsDiffer(r, Flip(x.port));
    if a == j {
      PopOther(s.stream[a], r);
    } else {
      PopOther(s.stream[b], Flip(r));
    }
    ReceiverElsewhere(s.node[i], x, alloc, a == i, r, PlaceOf(t, Ident(a, r)));
    Unconcerned(s.node[a], s.node[b], s.stream[a], s.stream[b], r, PlaceOf(t, Ident(a, r)),
                s'.node[a], s'.node[b], s'.stream[a], s'.stream[b]);
  }

  /** What reception of `x` changes for another port: of the receiver's own, or of its peer's. */
  lemma ReceiverElsewhere(n: Node, x: Packet, alloc: Port, own: bool, r: Port, place: Place)
    requires NetmsgMaps.Consistent(n) && NetmsgMaps.Unused(n, alloc) && (x.kind.MoveSend? || x.kind.MoveReceive?)
    requires if x.port < LOCAL_FLAG then Name(x.port) else Native(n, Flip(x.port))
    requires Translate(n, x.kind, x.port, alloc, NULL).Ok?
    requires own ==>
        (x.port >= LOCAL_FLAG ==> r != Flip(x.port)) && (!place.AtHome? ==> KindOf(n, r) == Receive && r !in n.byLocal)
    requires !own ==> x.port != r
    ensures var n' := Translate(n, x.kind, x.port, alloc, NULL).node;
            && (own ==>
                  && (KindOf(n', r) == KindOf(n, r) || place.AtHome?)
                  && (r in n'.byLocal ==> r in n.byLocal || place.AtHome?))
            && n.byRemote.Keys <= n'.byRemote.Keys
            && (!own ==> forall q :: q in n'.byLocal && n'.byLocal[q] == r ==>
                           q in n.byLocal && n.byLocal[q] == r && KindOf(n', q) == KindOf(n, q))
  {
  }

  lemma KeepsRights(t: Tracked, e: Event)
    requires RightsInv(t) && Proper(t, e)
    ensures Enabled(t.pair, e) && RightsInv(Go(t, e))
  {
    match e
    case Transmission(i, k, p) =>
      ProperTransmits(t, i, k, p);
      TransmissionKeeps(t.pair, i, k, p);
      forall a: Side, r: Port | Name(r) ensures Right(Go(t, e), a, r) {
        TransmissionRights(t, i, k, p, a, r);
      }
    case Reception(i, alloc) =>
      ProperReceives(t, i, alloc);
      ReceptionKeeps(t.pair, i, alloc);
      forall a: Side, r: Port | Name(r) ensures Right(Go(t, e), a, r) {
        ReceptionRights(t, i, alloc, a, r);
      }
  }

  lemma StartRights()
    ensures RightsInv(StartTracked)
  {
  }

  lemma {:induction false} ProperRunsOn(t: Tracked, evs: seq<Event>)
    requires RightsInv(t) && ProperRun(t, evs)
    ensures Valid(t.pair, evs)
    decreases |evs|
  {
    if evs == [] {
      assert Valid(t.pair, []);
    } else {
      KeepsRights(t, evs[0]);
      ProperRunsOn(Go(t, evs[0]), evs[1..]);
    }
  }

  /** No run that keeps to the rules is ever stopped: every transmission and every reception in it passes
      all assertions of both nodes. */
  lemma RelayingIsSafe(evs: seq<Event>)
    requires ProperRun(StartTracked, evs)
    ensures Valid(StartPair, evs)
  {
    StartRights();
    ProperRunsOn(StartTracked, evs);
  }
}
