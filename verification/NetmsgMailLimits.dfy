/**
Two runs of ordinary messages: one that comes too late for its port goes to a stranger, and a reply port that is a
proxy comes home as another proxy.
*/
module NetmsgMailLimits {
  import opened Netmsg
  import opened NetmsgMaps
  import opened NetmsgPair
  import opened NetmsgMail

  const Us := Own(1, 2, 3)
  const NoReply := Slot(MoveSend, NULL)
  const NoGrant := Grant(9, NULL)

  lemma {:induction false} MoreMail(s: Mail, evs: seq<MailEvent>, e: MailEvent) returns (more: seq<MailEvent>)
    requires MailRun(s, evs) && CanHappen(MailAfter(s, evs), e)
    ensures more == evs + [e] && MailRun(s, more) && MailAfter(s, more) == Next(MailAfter(s, evs), e)
    decreases |evs|
  {
    more := evs + [e];
    if evs == [] {
      assert more[1..] == [];
    } else {
      var rest := MoreMail(Next(s, evs[0]), evs[1..], e);
      assert more[1..] == rest;
    }
  }

  /** The state, without what the letters were meant to be. */
  ghost predicate Looks(s: Mail, n0: Node, n1: Node, out0: seq<Letter>, out1: seq<Letter>) {
    s == Mail([n0, n1], [Us, Us], [out0, out1])
  }

  /** A message to the peer's first port that carries one right, with no reply port. */
  predicate Carrier(x: Letter, right: Slot) {
    x.dest == CONTROL && !x.translate && x.reply == NoReply && x.body == [right] && !x.stray
  }

  /** Node `i` sends such a message; `right` becomes `wire`. */
  lemma Carry(s: Mail, n0: Node, n1: Node, i: Side, right: Slot, n: Node, wire: Port) returns (t: Mail, x: Letter)
    requires Looks(s, n0, n1, [], []) && Name(right.port)
    requires Transmit(if i == 0 then n0 else n1, right.name, right.port, false) == Ok(n, wire)
    ensures CanHappen(s, Post(i, 1, NoReply, [right])) && t == Next(s, Post(i, 1, NoReply, [right]))
    ensures Carrier(x, Slot(right.name, wire))
    ensures if i == 0 then Looks(t, n, n1, [x], []) else Looks(t, n0, n, [], [x])
  {
    var e := Post(i, 1, NoReply, [right]);
    var h := Posted(s, e);
    var was := if i == 0 then n0 else n1;
    assert [right][1..] == [] && [Slot(right.name, wire)] + [] == [Slot(right.name, wire)];
    assert TransmitBody(was, [right], false) == Sent(n, [Slot(right.name, wire)]);
    assert h == Relay(n, CONTROL, false, NULL, [Slot(right.name, wire)]);
    x := Written(s, e, h);
    t := Next(s, e);
    assert s.stream[i] + [x] == [x];
    assert t.node == (if i == 0 then [n, n1] else [n0, n]);
    assert t.stream == (if i == 0 then [[x], []] else [[], [x]]);
  }

  /** The other node takes it, and gives the right the name `to`. */
  lemma Take(s: Mail, n0: Node, n1: Node, i: Side, x: Letter, right: Slot, alloc: Port, n: Node, to: Port)
    returns (t: Mail)
    requires Carrier(x, right) && (if i == 0 then Looks(s, n0, n1, [], [x]) else Looks(s, n0, n1, [x], []))
    requires TranslateSlot(if i == 0 then n0 else n1, right, false, Grant(alloc, NULL)) == Ok(n, to)
    requires Unused(if i == 0 then n0 else n1, alloc) && Unused(n, 9)
    requires Free(s, i, alloc) && Free(s, i, 9)
    ensures var e := Fetch(i, NoGrant, [Grant(alloc, NULL)]); CanHappen(s, e) && t == Next(s, e)
    ensures if i == 0 then Looks(t, n, n1, [], []) else Looks(t, n0, n, [], [])
  {
    var g := Grant(alloc, NULL);
    var e := Fetch(i, NoGrant, [g]);
    assert [right][1..] == [] && [g][1..] == [];
    var was := if i == 0 then n0 else n1;
    assert TranslateBody(was, [right], false, [g]) == Sent(n, [Slot(right.name, to)]);
    assert Granted(was, [right], false, [g]);
    assert Names(NoGrant, [g]) == {9, alloc};
    t := Next(s, e);
    assert [x][1..] == [];
    assert t.node == (if i == 0 then [n, n1] else [n0, n]);
    assert t.stream == [[], []];
  }

  /** Node 0 sends a right for its port 5, and node 1 makes port 7 for it. */
  lemma Sends(t: TypeName, k: Kind, k': Kind) returns (evs: seq<MailEvent>)
    requires (t == MoveSend && k == Send && k' == Receive) || (t == MoveReceive && k == Receive && k' == Send)
    ensures MailRun(StartMail(Us, Us), evs)
    ensures Looks(MailAfter(StartMail(Us, Us), evs), SetKind(NewNode, 5, k), AddProxy(NewNode, 5, 7, k'), [], [])
  {
    var s, right := StartMail(Us, Us), Slot(t, 5);
    var away := SetKind(NewNode, 5, k);
    var s1, x1 := Carry(s, NewNode, NewNode, 0, right, away, 5);
    evs := MoreMail(s, [], Post(0, 1, NoReply, [right]));
    var s2 := Take(s1, away, NewNode, 1, x1, right, 7, AddProxy(NewNode, 5, 7, k'), 7);
    evs := MoreMail(s, evs, Fetch(1, NoGrant, [Grant(7, NULL)]));
  }

  /** Node 1 sends the receive right of its proxy 7 back. */
  lemma SendsBack(s: Mail, away: Node, proxy: Node, n0: Node, n1: Node)
    requires away == SetKind(NewNode, 5, Receive) && proxy == AddProxy(NewNode, 5, 7, Send)
    requires n0 == SetKind(away, 5, Send) && n1 == SetKind(proxy, 7, Receive) && Looks(s, away, proxy, [], [])
    ensures var post, e := Post(1, 1, NoReply, [Slot(MoveReceive, 7)]), Fetch(0, NoGrant, [Grant(8, NULL)]);
            && CanHappen(s, post) && CanHappen(Next(s, post), e)
            && Looks(Next(Next(s, post), e), n0, n1, [], [])
  {
    var s1, x1 := Carry(s, away, proxy, 1, Slot(MoveReceive, 7), n1, Flip(5));
    var s2 := Take(s1, away, n1, 0, x1, Slot(MoveReceive, Flip(5)), 8, n0, 5);
  }

  /** Node 0 sends the receive right of its port 5 away, and node 1 sends it back. */
  lemma ThereAndBack() returns (evs: seq<MailEvent>, n0: Node, n1: Node)
    ensures MailRun(StartMail(Us, Us), evs) && Looks(MailAfter(StartMail(Us, Us), evs), n0, n1, [], [])
    ensures n0 == SetKind(SetKind(NewNode, 5, Receive), 5, Send)
    ensures n1 == SetKind(AddProxy(NewNode, 5, 7, Send), 7, Receive)
  {
    var away, proxy := SetKind(NewNode, 5, Receive), AddProxy(NewNode, 5, 7, Send);
    n0, n1 := SetKind(away, 5, Send), SetKind(proxy, 7, Receive);
    evs := Sends(MoveReceive, Receive, Send);
    SendsBack(MailAfter(StartMail(Us, Us), evs), away, proxy, n0, n1);
    evs := MoreMail(StartMail(Us, Us), evs, Post(1, 1, NoReply, [Slot(MoveReceive, 7)]));
    evs := MoreMail(StartMail(Us, Us), evs, Fetch(0, NoGrant, [Grant(8, NULL)]));
  }

  /** A message for port 5 of node 0 that netmsg handles only then is delivered to port 5 of node 1. */
  lemma StrayIsReached() returns (evs: seq<MailEvent>, e: MailEvent)
    ensures MailRun(StartMail(Us, Us), evs)
    ensures var s := MailAfter(StartMail(Us, Us), evs);
            && CanHappen(s, e) && e.Fetch? && e.side == 1 && Fetched(s, e).Relay? && Fetched(s, e).local == 5
            && s.stream[0][0].meant == Ident(0, 5) && Means(Next(s, e).node, 1, 5, Ident(1, 5))
  {
    var before, n0, n1 := ThereAndBack();
    var s := MailAfter(StartMail(Us, Us), before);
    var post := Post(0, 5, NoReply, []);
    assert Posted(s, post) == Relay(n0, 5, false, NULL, []);
    evs := MoreMail(StartMail(Us, Us), before, post);
    NativeMeans(s.node, 0, 5);
    UltimateIs(s.node, 0, 5, Ident(0, 5));
    var x := Written(s, post, Posted(s, post));
    assert s.stream[0] + [x] == [x];
    e := TakeStray(MailAfter(StartMail(Us, Us), evs), n0, n1, x);
  }

  lemma TakeStray(s: Mail, n0: Node, n1: Node, x: Letter) returns (e: MailEvent)
    requires Looks(s, n0, n1, [x], []) && n1 == SetKind(AddProxy(NewNode, 5, 7, Send), 7, Receive)
    requires x.dest == 5 && !x.translate && x.reply == NoReply && x.body == [] && n0.byLocal == map[] == n0.onceByLocal
    ensures CanHappen(s, e) && e.Fetch? && e.side == 1 && Fetched(s, e).Relay? && Fetched(s, e).local == 5
    ensures Means(Next(s, e).node, 1, 5, Ident(1, 5))
  {
    e := Fetch(1, NoGrant, []);
    assert Fetched(s, e) == Relay(n1, 5, false, NULL, []);
    assert Names(NoGrant, []) == {9};
    NativeMeans(Next(s, e).node, 1, 5);
  }

  /** Node 1 replies to its proxy 7 for port 5 of node 0: node 0 makes port 9 for what is its own port 5. */
  lemma ReplyComesHomeAsProxy() returns (evs: seq<MailEvent>)
    ensures MailRun(StartMail(Us, Us), evs)
    ensures var s := MailAfter(StartMail(Us, Us), evs);
            && TwoNodes(s) && s.node[0].byLocal == map[9 := 7] && s.node[1].byLocal == map[7 := 5]
            && Means(s.node, 0, 9, Ident(0, 5))
  {
    evs := Sends(MoveSend, Send, Receive);
    var sent, proxy := SetKind(NewNode, 5, Send), AddProxy(NewNode, 5, 7, Receive);
    var s := MailAfter(StartMail(Us, Us), evs);
    var post, e := Post(1, 7, Slot(MoveSend, 7), []), Fetch(0, NoGrant, []);
    var t := RepliesToProxy(s, sent, proxy);
    evs := MoreMail(StartMail(Us, Us), evs, post);
    evs := MoreMail(StartMail(Us, Us), evs, e);
    NativeMeans(t.node, 0, 5);
    ProxyMeans(t.node, 1, 7, Ident(0, 5));
    ProxyMeans(t.node, 0, 9, Ident(0, 5));
  }

  lemma RepliesToProxy(s: Mail, sent: Node, proxy: Node) returns (t: Mail)
    requires Looks(s, sent, proxy, [], [])
    requires sent == SetKind(NewNode, 5, Send) && proxy == AddProxy(NewNode, 5, 7, Receive)
    ensures var post, e := Post(1, 7, Slot(MoveSend, 7), []), Fetch(0, NoGrant, []);
            CanHappen(s, post) && CanHappen(Next(s, post), e) && t == Next(Next(s, post), e)
    ensures TwoNodes(t) && t.node[0].byLocal == map[9 := 7] && t.node[1].byLocal == map[7 := 5]
  {
    var post, e := Post(1, 7, Slot(MoveSend, 7), []), Fetch(0, NoGrant, []);
    assert Posted(s, post) == Relay(proxy, 5, false, 7, []);
    var u := Next(s, post);
    var x := Written(s, post, Posted(s, post));
    assert s.stream[1] + [x] == [x] && x.body == [];
    assert Fetched(u, e) == Relay(AddProxy(sent, 7, 9, Receive), 5, false, 9, []);
    assert Names(NoGrant, []) == {9};
    assert CanHappen(u, e);
    t := Next(u, e);
  }
}
