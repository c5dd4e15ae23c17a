/**
What becomes of a send right that is sent against the rule of NetmsgRights: the sender is stopped at once,
or one of the two nodes is stopped later, whatever else happens.
*/
module NetmsgDoomed {
  import opened Netmsg
  import NetmsgMaps
  import opened NetmsgPair
  import opened NetmsgRights

  /** Behind the receive right there is another packet for the port. */
  ghost predicate MoreBehind(s: seq<Packet>, port: Port) {
    exists k, m :: IsReceive(s, k, port) && k < m && IsAbout(s, m, port)
  }

  /** The home node takes its port for one whose receive right it has not given away, while a packet is on
      its way that will show otherwise: a send right that finds the proxy with the receive right, or the
      receive right that comes back. */
  ghost predicate Doomed(n: Node, m: Node, out: seq<Packet>, back: seq<Packet>, p: Port, place: Place) {
    && KindOf(n, p) == Send && p !in n.byLocal
    && match place
       case AtHome => false
       case Leaving => OneReceive(out, p) && MoreBehind(out, p) && NoReceive(back, Flip(p))
       case Away => NoReceive(out, p) && !Nothing(out, p) && NoReceive(back, Flip(p)) &&
                    p in m.byRemote && KindOf(m, m.byRemote[p]) == Send
       case Returning => NoReceive(out, p) && !NoReceive(back, Flip(p))
  }

  ghost predicate DoomedAt(t: Tracked, i: Side, p: Port)
    requires TwoSided(t.pair)
  {
    && Name(p) && Inv(t.pair)
    && Doomed(t.pair.node[i], t.pair.node[Peer(i)], t.pair.stream[i], t.pair.stream[Peer(i)], p,
         PlaceOf(t, Ident(i, p)))
  }

  /** A send right from home while the receive right is not there. */
  lemma SendDooms(n: Node, m: Node, out: seq<Packet>, back: seq<Packet>, p: Port, place: Place, x: Packet)
    requires RightOk(n, m, out, back, p, place) && !place.AtHome? && NetmsgMaps.Consistent(m)
    requires x.kind.MoveSend? && x.port == p
    ensures Doomed(SetKind(n, p, Send), m, out + [x], back, p, place)
  {
    var r := out + [x];
    PushSend(out, x);
    assert IsAbout(r, |out|, p);
    assert forall k :: IsReceive(out, k, p) ==> IsAbout(out, k, p) && IsReceive(r, k, p);
    if place.Leaving? {
      var k :| EndsAt(out, k, p);
      assert OneAt(out, k, p);
      assert IsReceive(r, k, p) && k < |out|;
    }
    if place.Away? {
      var q := m.byRemote[p];
      assert q in m.byLocal && m.byLocal[q] == p;
    }
  }

  /** A send right may be sent exactly when nobody is stopped by it, now or later. */
  lemma SendIsSafeExactly(t: Tracked, i: Side, p: Port)
    requires RightsInv(t) && Name(p)
    ensures var e, x := Transmission(i, MoveSend, p), Meaning(t.pair.node[i], i, p);
            MaySend(t, i, x) <==> Enabled(t.pair, e) && !DoomedAt(Go(t, e), x.home, x.name)
  {
    var e, x := Transmission(i, MoveSend, p), Meaning(t.pair.node[i], i, p);
    var s := t.pair;
    assert SideOk(s, 0) && SideOk(s, 1);
    if MaySend(t, i, x) {
      KeepsRights(t, e);
      assert Name(x.name) ==> Right(Go(t, e), x.home, x.name);
    } else {
      assert Name(x.name) && Right(t, x.home, x.name);
      if x.home == i {
        assert Enabled(s, e);
        TransmissionKeeps(s, i, MoveSend, p);
        SendDooms(s.node[i], s.node[Peer(i)], s.stream[i], s.stream[Peer(i)], p, PlaceOf(t, x), Packet(MoveSend, p, x));
      }
    }
  }

  /** Then one node or the other is stopped as soon as it comes to the packet. */
  lemma DoomedIsStopped(n: Node, m: Node, out: seq<Packet>, back: seq<Packet>, p: Port, place: Place, alloc: Port)
    requires Doomed(n, m, out, back, p, place) && Name(p)
    ensures place.Away? && out != [] && out[0].port == p && (out[0].kind.MoveSend? || out[0].kind.MoveReceive?) ==>
              Translate(m, out[0].kind, p, alloc, NULL).Halt?
    ensures back != [] && back[0].port == Flip(p) && back[0].kind.MoveReceive? ==>
              Translate(n, MoveReceive, Flip(p), alloc, NULL).Halt?
  {
  }

  lemma MoreBehindPush(s: seq<Packet>, x: Packet, port: Port)
    requires MoreBehind(s, port)
    ensures MoreBehind(s + [x], port)
  {
    var k, m :| IsReceive(s, k, port) && k < m && IsAbout(s, m, port);
    assert IsReceive(s + [x], k, port) && IsAbout(s + [x], m, port);
  }

  lemma MoreBehindPop(s: seq<Packet>, port: Port)
    requires s != [] && MoreBehind(s, port) && OneReceive(s, port)
    ensures if IsReceive(s, 0, port) then !Nothing(s[1..], port) && NoReceive(s[1..], port)
            else MoreBehind(s[1..], port) && OneReceive(s[1..], port)
  {
    var k, m :| IsReceive(s, k, port) && k < m && IsAbout(s, m, port);
    assert IsAbout(s[1..], m - 1, port);
    if IsReceive(s, 0, port) {
      PopReceive(s);
    } else {
      PopOne(s, port);
      assert IsReceive(s[1..], k - 1, port);
    }
  }

  lemma SomethingPush(s: seq<Packet>, x: Packet, port: Port)
    ensures !Nothing(s, port) ==> !Nothing(s + [x], port)
    ensures !NoReceive(s, port) ==> !NoReceive(s + [x], port)
  {
    assert forall n :: IsAbout(s, n, port) ==> IsAbout(s + [x], n, port);
    assert forall n :: IsReceive(s, n, port) ==> IsReceive(s + [x], n, port);
  }

  lemma SomethingPop(s: seq<Packet>, port: Port)
    requires s != []
    ensures !IsAbout(s, 0, port) && !Nothing(s, port) ==> !Nothing(s[1..], port)
    ensures !IsReceive(s, 0, port) && !NoReceive(s, port) ==> !NoReceive(s[1..], port)
  {
    assert forall n :: n > 0 && IsAbout(s, n, port) ==> IsAbout(s[1..], n - 1, port);
    assert forall n :: n > 0 && IsReceive(s, n, port) ==> IsReceive(s[1..], n - 1, port);
  }

  // ----- whatever else happens

  /** Something is sent about another port, or a send right flagged. */
  lemma DoomedOther(n: Node, m: Node, out: seq<Packet>, back: seq<Packet>, p: Port, place: Place,
                    n': Node, m': Node, out': seq<Packet>, back': seq<Packet>)
    requires Doomed(n, m, out, back, p, place)
    requires KindOf(n', p) == KindOf(n, p) && (p in n'.byLocal ==> p in n.byLocal)
    requires p in m.byRemote ==> p in m'.byRemote && m'.byRemote[p] == m.byRemote[p] &&
                                 KindOf(m', m.byRemote[p]) == KindOf(m, m.byRemote[p])
    requires SameAbout(out, out', p) && (MoreBehind(out, p) ==> MoreBehind(out', p)) &&
      (!Nothing(out, p) ==> !Nothing(out', p))
    requires (NoReceive(back, Flip(p)) ==> NoReceive(back', Flip(p))) &&
      (!NoReceive(back, Flip(p)) ==> !NoReceive(back', Flip(p)))
    ensures Doomed(n', m', out', back', p, place)
  {
  }

  /** The home node sends something about another port. */
  lemma HomeSends(n: Node, m: Node, out: seq<Packet>, back: seq<Packet>, p: Port, place: Place, n': Node, x: Packet)
    requires Doomed(n, m, out, back, p, place) && x.port != p
    requires n'.byLocal == n.byLocal && KindOf(n', p) == KindOf(n, p)
    ensures Doomed(n', m, out + [x], back, p, place)
  {
    PushOther(out, x, p);
    SomethingPush(out, x, p);
    if MoreBehind(out, p) {
      MoreBehindPush(out, x, p);
    }
    DoomedOther(n, m, out, back, p, place, n', m, out + [x], back);
  }

  /** The peer sends something about another port, or a send right from the proxy. */
  lemma PeerSends(n: Node, m: Node, out: seq<Packet>, back: seq<Packet>, p: Port, place: Place, m': Node, x: Packet)
    requires Doomed(n, m, out, back, p, place) && !(x.port == Flip(p) && x.kind.MoveReceive?)
    requires m'.byRemote == m.byRemote && (p in m.byRemote ==> KindOf(m', m.byRemote[p]) == KindOf(m, m.byRemote[p]))
    ensures Doomed(n, m', out, back + [x], p, place)
  {
    SameStream(out, p);
    SomethingPush(back, x, Flip(p));
    assert forall k :: IsReceive(back + [x], k, Flip(p)) ==> IsReceive(back, k, Flip(p));
    DoomedOther(n, m, out, back, p, place, n, m', out, back + [x]);
  }

  lemma DoomedTransmission(t: Tracked, e: Event, i: Side, p: Port)
    requires TwoSided(t.pair) && DoomedAt(t, i, p) && e.Transmission? && Proper(t, e) && Enabled(t.pair, e)
    ensures DoomedAt(Go(t, e), i, p)
  {
    var s, a := t.pair, e.side;
    var x := Meaning(s.node[a], a, e.name);
    TransmissionKeeps(s, a, e.kind, e.name);
    if a == i {
      assert e.name != p;
      HomeTransmits(t, e, p);
    } else {
      PeerTransmits(t, e, p);
    }
  }

  lemma HomeTransmits(t: Tracked, e: Event, p: Port)
    requires TwoSided(t.pair) && e.Transmission? && DoomedAt(t, e.side, p) && Enabled(t.pair, e) && e.name != p
    requires Inv(Step(t.pair, e))
    ensures DoomedAt(Go(t, e), e.side, p)
  {
    var s, i := t.pair, e.side;
    var out := Transmit(s.node[i], e.kind, e.name, false);
    var x := Meaning(s.node[i], i, e.name);
    assert x != Ident(i, p);
    assert SideOk(s, i);
    TransmitElsewhere(s.node[i], e.kind, e.name, p);
    assert out.port != p;
    HomeSends(s.node[i], s.node[Peer(i)], s.stream[i], s.stream[Peer(i)], p, PlaceOf(t, Ident(i, p)),
              out.node, Packet(e.kind, out.port, x));
  }

  lemma PeerTransmits(t: Tracked, e: Event, p: Port)
    requires TwoSided(t.pair) && e.Transmission? && DoomedAt(t, Peer(e.side), p) && Proper(t, e) && Enabled(t.pair, e)
    requires Inv(Step(t.pair, e))
    ensures DoomedAt(Go(t, e), Peer(e.side), p)
  {
    var s, a, i := t.pair, e.side, Peer(e.side);
    var m := s.node[a];
    var out := Transmit(m, e.kind, e.name, false);
    var x := Meaning(m, a, e.name);
    var packet := Packet(e.kind, out.port, x);
    assert SideOk(s, a);
    if x == Ident(i, p) && e.kind.MoveReceive? {
      assert IsReceive(s.stream[a] + [packet], |s.stream[a]|, Flip(p));
    } else {
      ProxyElsewhere(m, a, e.kind, e.name, p);
      PeerSends(s.node[i], m, s.stream[i], s.stream[a], p, PlaceOf(t, Ident(i, p)), out.node, packet);
    }
  }

  /** Transmission by the peer, other than of the port's receive right, leaves the port's proxy. */
  lemma ProxyElsewhere(m: Node, a: Side, k: TypeName, name: Port, p: Port)
    requires NetmsgMaps.Consistent(m) && Name(name) && Name(p) && (k.MoveSend? || k.MoveReceive?)
    requires Transmit(m, k, name, false).Ok? && !(Meaning(m, a, name) == Ident(Peer(a), p) && k.MoveReceive?)
    ensures var out := Transmit(m, k, name, false);
            && out.node.byRemote == m.byRemote
            && (p in m.byRemote ==> KindOf(out.node, m.byRemote[p]) == KindOf(m, m.byRemote[p]))
            && !(out.port == Flip(p) && k.MoveReceive?)
  {
    if p in m.byRemote && name != m.byRemote[p] {
      TransmitElsewhere(m, k, name, m.byRemote[p]);
    }
  }

  /** Reception of `x` leaves the kind of a port that is known, and not the one meant, and of a proxy for another. */
  lemma ReceiveElsewhere(n: Node, x: Packet, alloc: Port, p: Port)
    requires NetmsgMaps.Consistent(n) && NetmsgMaps.Unused(n, alloc) && (x.kind.MoveSend? || x.kind.MoveReceive?)
    requires if x.port < LOCAL_FLAG then Name(x.port) else Native(n, Flip(x.port))
    requires Translate(n, x.kind, x.port, alloc, NULL).Ok?
    ensures var n' := Translate(n, x.kind, x.port, alloc, NULL).node;
            && (p in n.kind && p !in n.byLocal ==>
                  p !in n'.byLocal && (p != Flip(x.port) || x.kind.MoveSend? ==> KindOf(n', p) == KindOf(n, p)))
            && (p in n.byRemote ==> p in n'.byRemote && n'.byRemote[p] == n.byRemote[p])
            && (p in n.byRemote && p != x.port ==> KindOf(n', n.byRemote[p]) == KindOf(n, n.byRemote[p]))
  {
  }

  /** The home node receives. */
  lemma DoomedAtHome(t: Tracked, i: Side, p: Port, alloc: Port)
    requires TwoSided(t.pair) && DoomedAt(t, i, p) && Enabled(t.pair, Reception(i, alloc))
    ensures DoomedAt(Go(t, Reception(i, alloc)), i, p)
  {
    var s, j := t.pair, Peer(i);
    var x, n := s.stream[j][0], s.node[i];
    assert SideOk(s, 0) && SideOk(s, 1) && PacketOk(s.node[j], n, j, x);
    ReceptionKeeps(s, i, alloc);
    DoomedIsStopped(n, s.node[j], s.stream[i], s.stream[j], p, PlaceOf(t, Ident(i, p)), alloc);
    FlipsDiffer(p, Flip(x.port));
    ReceiveElsewhere(n, x, alloc, p);
    HomeReceives(n, s.node[j], s.stream[i], s.stream[j], p, PlaceOf(t, Ident(i, p)),
                 Translate(n, x.kind, x.port, alloc, NULL).node);
  }

  lemma HomeReceives(n: Node, m: Node, out: seq<Packet>, back: seq<Packet>, p: Port, place: Place, n': Node)
    requires Doomed(n, m, out, back, p, place) && back != [] && !IsReceive(back, 0, Flip(p))
    requires KindOf(n', p) == KindOf(n, p) && p !in n'.byLocal
    ensures Doomed(n', m, out, back[1..], p, place)
  {
    SameStream(out, p);
    PopFewer(back, Flip(p));
    SomethingPop(back, Flip(p));
    DoomedOther(n, m, out, back, p, place, n', m, out, back[1..]);
  }

  /** The peer receives something about another port. */
  lemma DoomedElsewhere(t: Tracked, i: Side, p: Port, alloc: Port)
    requires TwoSided(t.pair) && DoomedAt(t, i, p) && Enabled(t.pair, Reception(Peer(i), alloc))
    requires t.pair.stream[i][0].port != p
    ensures DoomedAt(Go(t, Reception(Peer(i), alloc)), i, p)
  {
    var s, j := t.pair, Peer(i);
    var x, m := s.stream[i][0], s.node[j];
    assert SideOk(s, 0) && SideOk(s, 1) && PacketOk(s.node[i], m, i, x);
    ReceptionKeeps(s, j, alloc);
    ReceiveElsewhere(m, x, alloc, p);
    PeerReceives(s.node[i], m, s.stream[i], s.stream[j], p, PlaceOf(t, Ident(i, p)),
                 Translate(m, x.kind, x.port, alloc, NULL).node);
    FlipsDiffer(p, Flip(x.port));
  }

  lemma PeerReceives(n: Node, m: Node, out: seq<Packet>, back: seq<Packet>, p: Port, place: Place, m': Node)
    requires Doomed(n, m, out, back, p, place) && out != [] && out[0].port != p
    requires p in m.byRemote ==> p in m'.byRemote && m'.byRemote[p] == m.byRemote[p] &&
                                 KindOf(m', m.byRemote[p]) == KindOf(m, m.byRemote[p])
    ensures Doomed(n, m', out[1..], back, p, place)
  {
    PopOther(out, p);
    SomethingPop(out, p);
    if place.Leaving? {
      MoreBehindPop(out, p);
    }
  }

  /** The peer receives a packet about the port. */
  lemma DoomedAtPeer(t: Tracked, i: Side, p: Port, alloc: Port)
    requires TwoSided(t.pair) && DoomedAt(t, i, p) && Enabled(t.pair, Reception(Peer(i), alloc))
    requires t.pair.stream[i][0].port == p
    ensures DoomedAt(Go(t, Reception(Peer(i), alloc)), i, p)
  {
    var s, j := t.pair, Peer(i);
    var x := s.stream[i][0];
    assert SideOk(s, 0) && SideOk(s, 1) && PacketOk(s.node[i], s.node[j], i, x);
    ReceptionKeeps(s, j, alloc);
    DoomedIsStopped(s.node[i], s.node[j], s.stream[i], s.stream[j], p, PlaceOf(t, Ident(i, p)), alloc);
    assert x.kind.MoveReceive? ==> IsReceive(s.stream[i], 0, p);
    PopFewer(s.stream[i], p);
    if PlaceOf(t, Ident(i, p)).Leaving? {
      MoreBehindPop(s.stream[i], p);
    }
  }

  lemma DoomedStep(t: Tracked, e: Event, i: Side, p: Port)
    requires TwoSided(t.pair) && DoomedAt(t, i, p) && Proper(t, e) && Enabled(t.pair, e)
    ensures TwoSided(Go(t, e).pair) && DoomedAt(Go(t, e), i, p)
  {
    match e
    case Transmission(_, _, _) => DoomedTransmission(t, e, i, p);
    case Reception(a, alloc) =>
      if a == i {
        DoomedAtHome(t, i, p, alloc);
      } else if t.pair.stream[i][0].port == p {
        DoomedAtPeer(t, i, p, alloc);
      } else {
        DoomedElsewhere(t, i, p, alloc);
      }
  }

  ghost function GoAll(t: Tracked, evs: seq<Event>): Tracked
    requires Valid(t.pair, evs)
    decreases |evs|
  {
    if evs == [] then t else GoAll(Go(t, evs[0]), evs[1..])
  }

  /** Over every proper continuation that has not been stopped, a packet is still on its way that will stop
      the node it comes to: the streams are never drained. */
  lemma {:induction false} DoomIsForGood(t: Tracked, evs: seq<Event>, i: Side, p: Port)
    requires TwoSided(t.pair) && DoomedAt(t, i, p) && ProperRun(t, evs) && Valid(t.pair, evs)
    ensures var u := GoAll(t, evs);
            TwoSided(u.pair) && DoomedAt(u, i, p) && !(u.pair.stream[0] == [] && u.pair.stream[1] == [])
    decreases |evs|
  {
    if evs == [] {
      assert t.pair.stream[i] != [] || t.pair.stream[Peer(i)] != [];
    } else {
      DoomedStep(t, evs[0], i, p);
      DoomIsForGood(Go(t, evs[0]), evs[1..], i, p);
    }
  }
}
