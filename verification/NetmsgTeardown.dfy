/**
Ports that die: a NO SENDERS or a DEAD NAME notification makes both nodes forget their names for the port, and
nothing else.
*/
module NetmsgTeardown {
  import opened Netmsg
  import opened NetmsgMaps
  import opened NetmsgPair

  /** `m` is `n` without the port `p`, and otherwise the same. */
  ghost predicate Forgotten(n: Node, m: Node, p: Port) {
    && m.kind == n.kind - {p} && m.byLocal == n.byLocal - {p}
    && m.byRemote == (if p in n.byLocal then n.byRemote - {n.byLocal[p]} else n.byRemote)
    && m.onceByLocal == n.onceByLocal && m.onceByRemote == n.onceByRemote
  }

  /** Messages for port `p` of node `n` are passed on to port `q` of node `m`: one of the two is the proxy of the
      other, `n` has the receive right that it made or was given, and `m` a send right. */
  ghost predicate Linked(n: Node, m: Node, p: Port, q: Port) {
    && Name(p) && Name(q) && KindOf(n, p) == Receive && KindOf(m, q) == Send
    && p !in n.onceByLocal
    && ((p in n.byLocal && n.byLocal[p] == q && q !in m.byLocal) ||
        (q in m.byLocal && m.byLocal[q] == p && p !in n.byLocal))
  }

  /** The port is not one that netmsg keeps for itself. */
  predicate Others(own: Own, p: Port) {
    p != own.control && p != own.notification && p != own.first
  }

  /** All senders of `p` are gone: its node forgets it, and tells its peer. */
  lemma NoSendersHere(n: Node, m: Node, own: Own, p: Port, q: Port, reply: Port)
    requires Consistent(n) && Consistent(m) && Linked(n, m, p, q) && Others(own, p)
    ensures var h := HandleIpc(n, own, p, reply, NoSenders, []);
            && h.Relay? && Forgotten(n, h.node, p) && h.reply == reply && h.body == []
            && (p in n.byLocal ==> h.local == q && !h.translate)
            && (p !in n.byLocal ==> h.local == p && h.translate)
  {
    assert NULL !in n.byRemote;
    assert n.byRemote - {NULL} == n.byRemote;
    if p !in n.byLocal {
      assert n.byLocal - {p} == n.byLocal;
    }
  }

  /** The peer takes the notification, and forgets its name for the port. */
  lemma NoSendersThere(n: Node, m: Node, own: Own, p: Port, q: Port, reply: Slot, g: Grant)
    requires Consistent(n) && Consistent(m) && Linked(n, m, p, q)
    ensures var dest, translate := if p in n.byLocal then q else p, p !in n.byLocal;
            var h := HandleNet(m, own, dest, translate, NoSenders, reply, g, [], []);
            h.Discard? && Forgotten(m, h.node, q)
  {
    if q !in m.byLocal {
      assert m.byLocal - {q} == m.byLocal;
    }
  }

  /** The receive right of `q` is gone: its node forgets the name, and tells its peer. */
  lemma DeadNameThere(n: Node, m: Node, own: Own, p: Port, q: Port, reply: Port)
    requires Consistent(n) && Consistent(m) && Linked(n, m, p, q) && own.notification != own.control
    ensures var h := HandleIpc(m, own, own.notification, reply, DeadName, [Slot(PortName, q)]);
            && h.Relay? && Forgotten(m, h.node, q) && h.local == CONTROL && !h.translate && h.reply == reply
            && h.body == [Slot(PortName, if q in m.byLocal then Flip(p) else q)]
  {
    var body := [Slot(PortName, q)];
    assert body[1..] == [];
    var noted := DropKind(m, q);
    assert TransmitBody(noted, body, true) ==
      Sent(noted, [Slot(PortName, if q in m.byLocal then Flip(p) else q)] + []);
    assert [Slot(PortName, if q in m.byLocal then Flip(p) else q)] + [] ==
      [Slot(PortName, if q in m.byLocal then Flip(p) else q)];
    if q !in m.byLocal {
      assert m.byLocal - {q} == m.byLocal;
    }
  }

  /** The peer takes that notification, and forgets its name for the port. */
  lemma DeadNameHere(n: Node, m: Node, own: Own, p: Port, q: Port, reply: Slot, g: Grant, gs: seq<Grant>)
    requires Consistent(n) && Consistent(m) && Linked(n, m, p, q) && |gs| == 1
    ensures var body := [Slot(PortName, if q in m.byLocal then Flip(p) else q)];
            var h := HandleNet(n, own, CONTROL, false, DeadName, reply, g, body, gs);
            h.Discard? && Forgotten(n, h.node, p)
  {
    var x := Slot(PortName, if q in m.byLocal then Flip(p) else q);
    assert [x][1..] == [] && gs[1..] == [];
    assert TranslateSlot(n, x, true, gs[0]) == Ok(n, p);
    assert TranslateBody(n, [x], true, gs) == Sent(n, [Slot(PortName, p)] + []);
    assert [Slot(PortName, p)] + [] == [Slot(PortName, p)];
    if p !in n.byLocal {
      assert n.byLocal - {p} == n.byLocal;
    }
  }

  /** The two ends of one notification. */
  datatype Ends = Ends(sender: Handled, receiver: Handled)

  /** A NO SENDERS notification from `p`, handled by both nodes. */
  function NoSendersRun(n: Node, m: Node, own: Own, own': Own, p: Port, reply: Slot, g: Grant): Ends {
    var h := HandleIpc(n, own, p, reply.port, NoSenders, []);
    Ends(h, if h.Relay? && h.body == [] then HandleNet(m, own', h.local, h.translate, NoSenders, reply, g, [], [])
            else Dead)
  }

  /** A DEAD NAME notification for `q`, handled by both nodes. */
  function DeadNameRun(n: Node, m: Node, own: Own, own': Own, q: Port, reply: Slot, g: Grant, h': Grant): Ends {
    var h := HandleIpc(m, own', own'.notification, reply.port, DeadName, [Slot(PortName, q)]);
    Ends(h, if h.Relay? && |h.body| == 1 then HandleNet(n, own, h.local, h.translate, DeadName, reply, g, h.body, [h'])
            else Dead)
  }

  /** Whichever side is the proxy and whichever notification comes, both nodes forget the port and nothing else. */
  lemma BothForget(n: Node, m: Node, own: Own, own': Own, p: Port, q: Port, reply: Slot, g: Grant, h': Grant)
    requires Consistent(n) && Consistent(m) && Linked(n, m, p, q)
    requires Others(own, p) && own'.notification != own'.control
    ensures var e := NoSendersRun(n, m, own, own', p, reply, g);
            && e.sender.Relay? && Forgotten(n, e.sender.node, p)
            && e.receiver.Discard? && Forgotten(m, e.receiver.node, q)
    ensures var e := DeadNameRun(n, m, own, own', q, reply, g, h');
            && e.sender.Relay? && Forgotten(m, e.sender.node, q)
            && e.receiver.Discard? && Forgotten(n, e.receiver.node, p)
  {
    NoSendersHere(n, m, own, p, q, reply.port);
    NoSendersThere(n, m, own', p, q, reply, g);
    DeadNameThere(n, m, own', p, q, reply.port);
    DeadNameHere(n, m, own, p, q, reply, g, [h']);
  }

  /** A notification that crosses another changes nothing: the port is no longer known. */
  lemma CrossingIsHarmless(n: Node, own: Own, dest: Port, translate: bool, reply: Slot, g: Grant, x: Port,
                           gs: seq<Grant>)
    requires |gs| == 1 && Name(x) && dest != CONTROL
    requires if translate then dest !in n.byRemote else dest !in n.kind
    ensures HandleNet(n, own, dest, translate, NoSenders, reply, g, [], []) == Discard(n)
    ensures x !in n.byRemote && NULL !in n.kind ==>
              HandleNet(n, own, CONTROL, false, DeadName, reply, g, [Slot(PortName, x)], gs) == Discard(n)
    ensures x !in n.kind ==>
              HandleNet(n, own, CONTROL, false, DeadName, reply, g, [Slot(PortName, Flip(x))], gs) == Discard(n)
  {
    var a, b := Slot(PortName, x), Slot(PortName, Flip(x));
    assert [a][1..] == [] && [b][1..] == [] && gs[1..] == [];
    assert x !in n.byRemote ==> TranslateBody(n, [a], true, gs) == Sent(n, [Slot(PortName, NULL)] + []);
    assert TranslateBody(n, [b], true, gs) == Sent(n, [Slot(PortName, x)] + []);
    assert [Slot(PortName, NULL)] + [] == [Slot(PortName, NULL)] && [Slot(PortName, x)] + [] == [Slot(PortName, x)];
  }
}
