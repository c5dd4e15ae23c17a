/**
No message is lost on the way, a port keeps its meaning while messages come and go, and two things go wrong:
a message that comes too late for its port, and a reply port that is a proxy.
*/
module NetmsgMailSafe {
  import opened Netmsg
  import opened NetmsgMaps
  import opened NetmsgPair
  import opened NetmsgMail
  import opened NetmsgMailProof

  // ----- no message is lost

  /** The node's own port `p`, of which it sent the receive right away. */
  predicate Away(n: Node, p: Port) {
    Name(p) && p !in n.byLocal && KindOf(n, p) == Receive
  }

  /** The letter carries the receive right of its sender's port `p`. */
  predicate Brings(x: Letter, p: Port) {
    BringsIn(x.body, p)
  }

  predicate BringsIn(body: seq<Slot>, p: Port) {
    exists k :: 0 <= k < |body| && body[k] == Slot(MoveReceive, p)
  }

  lemma TransmitAway(n: Node, x: Slot, p: Port)
    ensures var out := Transmit(n, x.name, x.port, false);
            out.Ok? && Away(out.node, p) ==> Away(n, p) || Slot(x.name, out.port) == Slot(MoveReceive, p)
  {
  }

  lemma {:induction false} TransmitBodyAway(n: Node, body: seq<Slot>, p: Port)
    ensures var r := TransmitBody(n, body, false); r.Sent? && Away(r.node, p) ==> Away(n, p) || BringsIn(r.body, p)
    decreases |body|
  {
    if body != [] {
      TransmitAway(n, body[0], p);
      var out := Transmit(n, body[0].name, body[0].port, false);
      if out.Ok? {
        TransmitBodyAway(out.node, body[1..], p);
        var r := TransmitBody(out.node, body[1..], false);
        if r.Sent? && BringsIn(r.body, p) {
          var k :| 0 <= k < |r.body| && r.body[k] == Slot(MoveReceive, p);
          assert TransmitBody(n, body, false).body[k + 1] == Slot(MoveReceive, p);
        }
        if r.Sent? {
          assert TransmitBody(n, body, false).body[0] == Slot(body[0].name, out.port);
        }
      }
    }
  }

  lemma TranslateAway(n: Node, x: Slot, g: Grant, p: Port)
    requires NodeOk(n) && Unused(n, g.alloc)
    ensures var out := TranslateSlot(n, x, false, g); out.Ok? && Away(out.node, p) ==> Away(n, p)
  {
  }

  lemma {:induction false} TranslateBodyAway(n: Node, body: seq<Slot>, gs: seq<Grant>, p: Port)
    requires |gs| == |body| && NodeOk(n) && Granted(n, body, false, gs)
    requires forall k :: 0 <= k < |body| ==> WireSlot(body[k])
    ensures var r := TranslateBody(n, body, false, gs); r.Sent? && Away(r.node, p) ==> Away(n, p)
    decreases |body|
  {
    if body != [] {
      TranslateAway(n, body[0], gs[0], p);
      TranslateDone(n, body[0], gs[0]);
      var out := TranslateSlot(n, body[0], false, gs[0]);
      if out.Ok? {
        TranslateBodyAway(out.node, body[1..], gs[1..], p);
      }
    }
  }

  /** The receive right of `p` has reached the peer, or is in one of the first `m` letters. */
  ghost predicate Follows(s: Mail, i: Side, p: Port, m: nat)
    requires TwoNodes(s) && m <= |s.stream[i]|
  {
    p in s.node[Peer(i)].byRemote || exists k :: 0 <= k < m && Brings(s.stream[i][k], p)
  }

  ghost predicate Followed(s: Mail, i: Side)
    requires TwoNodes(s)
  {
    && (forall p :: Away(s.node[i], p) ==> Follows(s, i, p, |s.stream[i]|))
    && (forall m :: 0 <= m < |s.stream[i]| && s.stream[i][m].translate ==>
          Name(s.stream[i][m].dest) && Follows(s, i, s.stream[i][m].dest, m))
  }

  ghost predicate AllFollowed(s: Mail) {
    TwoNodes(s) && Followed(s, 0) && Followed(s, 1)
  }

  /** A letter is added, or none is. */
  lemma FollowsMore(s: Mail, t: Mail, i: Side, p: Port, m: nat)
    requires TwoNodes(s) && TwoNodes(t) && m <= |s.stream[i]| <= |t.stream[i]|
    requires s.stream[i] == t.stream[i][..|s.stream[i]|] && Follows(s, i, p, m)
    requires s.node[Peer(i)].byRemote.Keys <= t.node[Peer(i)].byRemote.Keys
    ensures Follows(t, i, p, m)
  {
    if p !in s.node[Peer(i)].byRemote {
      var k :| 0 <= k < m && Brings(s.stream[i][k], p);
      assert t.stream[i][k] == t.stream[i][..|s.stream[i]|][k];
      assert Brings(t.stream[i][k], p);
    }
  }

  /** The first letter is taken. */
  lemma FollowsLess(s: Mail, t: Mail, i: Side, p: Port, m: nat)
    requires TwoNodes(s) && TwoNodes(t) && 0 < m <= |s.stream[i]| && t.stream[i] == s.stream[i][1..]
    requires s.node[Peer(i)].byRemote.Keys <= t.node[Peer(i)].byRemote.Keys && Follows(s, i, p, m)
    requires Brings(s.stream[i][0], p) ==> p in t.node[Peer(i)].byRemote
    ensures Follows(t, i, p, m - 1)
  {
    if p !in t.node[Peer(i)].byRemote {
      var k :| 0 <= k < m && Brings(s.stream[i][k], p);
      assert Brings(t.stream[i][k - 1], p);
    }
  }

  lemma PostFollowed(s: Mail, e: MailEvent)
    requires MailInv(s) && AllFollowed(s) && CanHappen(s, e) && e.Post?
    ensures AllFollowed(Next(s, e))
  {
    var i, t := e.side, Next(s, e);
    PostRemote(s, e);
    PostOther(s, t, i, Peer(i));
    if Posted(s, e).Relay? {
      PostOwn(s, e, t);
    } else {
      PostOther(s, t, i, i);
    }
    assert Followed(t, 0) && Followed(t, 1);
  }

  lemma PostRemote(s: Mail, e: MailEvent)
    requires MailInv(s) && CanHappen(s, e) && e.Post?
    ensures var n, m := s.node[e.side], Posted(s, e).node;
            && m.byRemote == n.byRemote && m.byLocal == n.byLocal
            && (Posted(s, e).Discard? ==> m == n)
            && (Posted(s, e).Relay? ==> forall p :: Away(m, p) ==> Away(n, p) || BringsIn(Posted(s, e).body, p))
            && (Posted(s, e).Relay? && Posted(s, e).translate ==> Posted(s, e).local == e.local && Away(n, e.local))
  {
    var i := e.side;
    assert EndOk(s, i);
    PostShape(s.node[i], s.own[i], e.local, e.reply.port, e.body);
    if Posted(s, e).Relay? {
      PostHeader(s.node[i], s.own[i], e.local, e.reply.port);
      var head := HeaderForTransmission(s.node[i], s.own[i], e.local, e.reply.port);
      TransmitBodyMeans(s.node, i, head.node, e.body);
      forall p | Away(Posted(s, e).node, p) ensures Away(s.node[i], p) || BringsIn(Posted(s, e).body, p) {
        TransmitBodyAway(head.node, e.body, p);
      }
    }
  }

  lemma PostOther(s: Mail, t: Mail, i: Side, a: Side)
    requires TwoNodes(s) && TwoNodes(t) && Followed(s, a) && t.stream[a] == s.stream[a]
    requires t.node[a] == s.node[a] && s.node[Peer(a)].byRemote == t.node[Peer(a)].byRemote
    ensures Followed(t, a)
  {
    var len := |s.stream[a]|;
    assert t.stream[a][..len] == s.stream[a];
    forall p | Away(t.node[a], p) ensures Follows(t, a, p, len) {
      FollowsMore(s, t, a, p, len);
    }
    forall m | 0 <= m < len && t.stream[a][m].translate ensures Follows(t, a, t.stream[a][m].dest, m) {
      FollowsMore(s, t, a, t.stream[a][m].dest, m);
    }
  }

  lemma PostOwn(s: Mail, e: MailEvent, t: Mail)
    requires MailInv(s) && AllFollowed(s) && CanHappen(s, e) && e.Post? && Posted(s, e).Relay? && t == Next(s, e)
    ensures Followed(t, e.side)
  {
    var i, h := e.side, Posted(s, e);
    PostRemote(s, e);
    OwnFollowed(s, t, i, Written(s, e, h));
  }

  lemma OwnFollowed(s: Mail, t: Mail, i: Side, x: Letter)
    requires TwoNodes(s) && TwoNodes(t) && Followed(s, i) && t.stream[i] == s.stream[i] + [x]
    requires s.node[Peer(i)].byRemote == t.node[Peer(i)].byRemote
    requires forall p :: Away(t.node[i], p) ==> Away(s.node[i], p) || Brings(x, p)
    requires x.translate ==> Away(s.node[i], x.dest)
    ensures Followed(t, i)
  {
    var len := |s.stream[i]|;
    assert t.stream[i][..len] == s.stream[i] && t.stream[i][len] == x;
    forall p | Away(t.node[i], p) ensures Follows(t, i, p, len + 1) {
      if !Brings(x, p) {
        FollowsMore(s, t, i, p, len);
      }
    }
    forall m | 0 <= m <= len && t.stream[i][m].translate
      ensures Name(t.stream[i][m].dest) && Follows(t, i, t.stream[i][m].dest, m) {
      if m < len {
        assert t.stream[i][m] == s.stream[i][m];
      }
      FollowsMore(s, t, i, t.stream[i][m].dest, m);
    }
  }

  lemma FetchFollowed(s: Mail, e: MailEvent)
    requires MailInv(s) && AllFollowed(s) && CanHappen(s, e) && e.Fetch?
    ensures AllFollowed(Next(s, e)) && Fetched(s, e).Relay?
  {
    var i, j, t := e.side, Peer(e.side), Next(s, e);
    FetchRemote(s, e);
    FetchOwn(s, t, i);
    TakenFollowed(s, t, j);
    assert Followed(t, 0) && Followed(t, 1);
  }

  lemma FetchRemote(s: Mail, e: MailEvent)
    requires MailInv(s) && AllFollowed(s) && CanHappen(s, e) && e.Fetch?
    ensures var n, m, x := s.node[e.side], Fetched(s, e).node, s.stream[Peer(e.side)][0];
            && Fetched(s, e).Relay?
            && n.byRemote.Keys <= m.byRemote.Keys
            && (forall p :: Away(m, p) ==> Away(n, p))
            && (forall p :: Name(p) && Brings(x, p) ==> p in m.byRemote)
  {
    var i, j := e.side, Peer(e.side);
    var x, g, gs := s.stream[j][0], e.grant, e.grants;
    assert EndOk(s, i) && EndOk(s, j) && LetterOk(s, j, x) && Followed(s, j);
    assert x.translate ==> x.dest in s.node[i].byRemote;
    FetchAway(s.node[i], s.own[i], x, g, gs);
  }

  lemma FetchAway(n: Node, own: Own, x: Letter, g: Grant, gs: seq<Grant>)
    requires NodeOk(n) && |gs| == |x.body| && ReplySlot(x.reply) && Granted(n, x.body, false, gs)
    requires forall k :: 0 <= k < |x.body| ==> WireSlot(x.body[k])
    requires var r := TranslateBody(n, x.body, false, gs); r.Sent? ==> Unused(r.node, g.alloc)
    requires x.translate ==> x.dest in n.byRemote
    ensures var h := HandleNet(n, own, x.dest, x.translate, OtherId, x.reply, g, x.body, gs);
            !h.Dead? ==>
              && h.Relay? && n.byRemote.Keys <= h.node.byRemote.Keys
              && (forall p :: Away(h.node, p) ==> Away(n, p))
              && (forall p :: Name(p) && Brings(x, p) ==> p in h.node.byRemote)
  {
    var h := HandleNet(n, own, x.dest, x.translate, OtherId, x.reply, g, x.body, gs);
    FetchShape(n, own, x, g, gs);
    TranslateBodyDone(n, x.body, gs);
    var r := TranslateBody(n, x.body, false, gs);
    if !h.Dead? {
      TranslateDone(r.node, x.reply, g);
      forall p | Away(h.node, p) ensures Away(n, p) {
        TranslateAway(r.node, x.reply, g, p);
        TranslateBodyAway(n, x.body, gs, p);
      }
      forall p | Name(p) && Brings(x, p) ensures p in h.node.byRemote {
        var k :| 0 <= k < |x.body| && x.body[k] == Slot(MoveReceive, p);
        assert SlotDone(r.node, x.body[k], r.body[k].port, gs[k]);
      }
    }
  }

  lemma FetchOwn(s: Mail, t: Mail, i: Side)
    requires TwoNodes(s) && TwoNodes(t) && Followed(s, i) && t.stream[i] == s.stream[i]
    requires t.node[Peer(i)] == s.node[Peer(i)] && forall p :: Away(t.node[i], p) ==> Away(s.node[i], p)
    ensures Followed(t, i)
  {
    var len := |s.stream[i]|;
    assert t.stream[i][..len] == s.stream[i];
    forall p | Away(t.node[i], p) ensures Follows(t, i, p, len) {
      FollowsMore(s, t, i, p, len);
    }
    forall m | 0 <= m < len && t.stream[i][m].translate ensures Follows(t, i, t.stream[i][m].dest, m) {
      FollowsMore(s, t, i, t.stream[i][m].dest, m);
    }
  }

  lemma TakenFollowed(s: Mail, t: Mail, j: Side)
    requires TwoNodes(s) && TwoNodes(t) && Followed(s, j) && s.stream[j] != [] && t.stream[j] == s.stream[j][1..]
    requires t.node[j] == s.node[j] && s.node[Peer(j)].byRemote.Keys <= t.node[Peer(j)].byRemote.Keys
    requires forall p :: Name(p) && Brings(s.stream[j][0], p) ==> p in t.node[Peer(j)].byRemote
    ensures Followed(t, j)
  {
    var len := |s.stream[j]|;
    forall p | Away(t.node[j], p) ensures Follows(t, j, p, len - 1) {
      FollowsLess(s, t, j, p, len);
    }
    forall m | 0 <= m < len - 1 && t.stream[j][m].translate
      ensures Name(t.stream[j][m].dest) && Follows(t, j, t.stream[j][m].dest, m) {
      assert t.stream[j][m] == s.stream[j][m + 1];
      FollowsLess(s, t, j, t.stream[j][m].dest, m + 1);
    }
  }

  lemma {:induction false} RunFollowed(s: Mail, evs: seq<MailEvent>)
    requires MailInv(s) && AllFollowed(s) && MailRun(s, evs)
    ensures MailInv(MailAfter(s, evs)) && AllFollowed(MailAfter(s, evs))
    decreases |evs|
  {
    if evs != [] {
      NextKeeps(s, evs[0]);
      if evs[0].Post? {
        PostFollowed(s, evs[0]);
      } else {
        FetchFollowed(s, evs[0]);
      }
      RunFollowed(Next(s, evs[0]), evs[1..]);
    }
  }

  /** A port of node `i` on which netmsg receives messages. */
  predicate Listens(n: Node, own: Own, p: Port) {
    p == own.control || p == own.notification || p in n.byLocal || p in n.onceByLocal || p in n.kind
  }

  /** In every run that goes on, a message to a port on which netmsg listens is passed on to the peer, and every
      message that comes from the peer is passed on to a port. */
  lemma NoMailIsLost(own0: Own, own1: Own, evs: seq<MailEvent>, e: MailEvent)
    requires Name(own0.first) && Name(own1.first) && MailRun(StartMail(own0, own1), evs)
    requires CanHappen(MailAfter(StartMail(own0, own1), evs), e)
    ensures var s := MailAfter(StartMail(own0, own1), evs);
            && TwoNodes(s)
            && (e.Post? ==> (Posted(s, e).Relay? <==> Listens(s.node[e.side], s.own[e.side], e.local)))
            && (e.Fetch? ==> Fetched(s, e).Relay?)
  {
    var s0 := StartMail(own0, own1);
    StartOk(own0, own1);
    assert Followed(s0, 0) && Followed(s0, 1);
    RunFollowed(s0, evs);
    var s := MailAfter(s0, evs);
    if e.Fetch? {
      FetchFollowed(s, e);
    } else {
      PostShape(s.node[e.side], s.own[e.side], e.local, e.reply.port, e.body);
    }
  }

  /** A send-once right is used once: both nodes' names for it are forgotten when the message is relayed. */
  lemma UsedOnce(s: Mail, e: MailEvent)
    requires MailInv(s) && CanHappen(s, e) && e.Post? && e.local in s.node[e.side].onceByLocal
    requires e.local != s.own[e.side].control && e.local != s.own[e.side].notification
    ensures var n, m := s.node[e.side], Next(s, e).node[e.side];
            && Posted(s, e).Relay? && Posted(s, e).local == n.onceByLocal[e.local]
            && m.onceByLocal == n.onceByLocal - {e.local}
            && m.onceByRemote == n.onceByRemote - {n.onceByLocal[e.local]}
  {
    var i := e.side;
    assert EndOk(s, i);
    PostShape(s.node[i], s.own[i], e.local, e.reply.port, e.body);
    PostHeader(s.node[i], s.own[i], e.local, e.reply.port);
    var head := HeaderForTransmission(s.node[i], s.own[i], e.local, e.reply.port);
    TransmitBodyKeeps(head.node, e.body, false, NULL);
  }

  // ----- a port keeps its meaning

  lemma SameMeaning(ns: seq<Node>, ms: seq<Node>, i: Side, names: set<Port>, a: Side, q: Port)
    requires Proxies(ns, ms, i, names) && Grounded(ns) && !(a == i && q in names)
    ensures Ultimate(ms, a, q) == Ultimate(ns, a, q)
  {
    assert HasMeaning(ns, a, q);
    MeansStays(ns, ms, i, names, a, q, Ultimate(ns, a, q));
    UltimateIs(ms, a, q, Ultimate(ns, a, q));
  }

  /** The port made for a send-once right is used. */
  predicate Uses(e: MailEvent, i: Side, p: Port) {
    e.Post? && e.side == i && e.local == p
  }

  /** What a step does to the names of node `i`. */
  lemma NextNames(s: Mail, e: MailEvent) returns (names: set<Port>)
    requires MailInv(s) && CanHappen(s, e)
    ensures var i, t := e.side, Next(s, e);
            && Proxies(s.node, t.node, i, names) && (forall p :: p in names ==> Free(s, i, p))
            && (forall p :: p in t.node[i].byLocal && p !in s.node[i].byLocal ==>
                  p !in s.node[i].kind && p !in s.node[i].onceByLocal)
            && (forall p :: p in t.node[i].onceByLocal && p !in s.node[i].onceByLocal ==>
                  p !in s.node[i].kind && p !in s.node[i].byLocal)
            && (forall p :: p in s.node[i].onceByLocal && !Uses(e, i, p) ==>
                  p in t.node[i].onceByLocal && t.node[i].onceByLocal[p] == s.node[i].onceByLocal[p])
            && s.node[i].kind.Keys <= t.node[i].kind.Keys
  {
    if e.Post? {
      names := {};
      PostNode(s, e);
      PostOnce(s, e);
    } else {
      names := Names(e.grant, e.grants);
      FetchNode(s, e);
    }
  }

  lemma PostOnce(s: Mail, e: MailEvent)
    requires MailInv(s) && CanHappen(s, e) && e.Post?
    ensures var n, m := s.node[e.side], Posted(s, e).node;
            && (forall p :: p in m.onceByLocal ==> p in n.onceByLocal && m.onceByLocal[p] == n.onceByLocal[p])
            && (forall p :: p in n.onceByLocal && p != e.local ==> p in m.onceByLocal)
            && n.kind.Keys <= m.kind.Keys
  {
    var i := e.side;
    assert EndOk(s, i);
    PostShape(s.node[i], s.own[i], e.local, e.reply.port, e.body);
    if Posted(s, e).Relay? {
      PostHeader(s.node[i], s.own[i], e.local, e.reply.port);
      var head := HeaderForTransmission(s.node[i], s.own[i], e.local, e.reply.port);
      TransmitBodyKeeps(head.node, e.body, false, NULL);
    }
  }

  /** What a step leaves as it was, for a port `p` of node `i`. */
  ghost predicate SameNames(s: Mail, t: Mail, side: Side, names: set<Port>, i: Side, p: Port) {
    && TwoNodes(s) && TwoNodes(t) && t.own == s.own
    && Proxies(s.node, t.node, side, names) && (forall x :: x in names ==> Free(s, side, x))
    && (p in t.node[i].byLocal && p !in s.node[i].byLocal ==> p !in s.node[i].kind && p !in s.node[i].onceByLocal)
    && (p in t.node[i].onceByLocal && p !in s.node[i].onceByLocal ==>
          p !in s.node[i].kind && p !in s.node[i].byLocal)
    && (p in s.node[i].onceByLocal ==>
          p in t.node[i].onceByLocal && t.node[i].onceByLocal[p] == s.node[i].onceByLocal[p])
    && s.node[i].kind.Keys <= t.node[i].kind.Keys
  }

  lemma NextSameNames(s: Mail, e: MailEvent, i: Side, p: Port) returns (names: set<Port>)
    requires MailInv(s) && CanHappen(s, e) && !(p in s.node[i].onceByLocal && Uses(e, i, p))
    ensures SameNames(s, Next(s, e), e.side, names, i, p)
  {
    names := NextNames(s, e);
  }

  lemma SameSentTo(s: Mail, t: Mail, side: Side, names: set<Port>, i: Side, p: Port)
    requires SameNames(s, t, side, names, i, p) && Grounded(s.node) && Listens(s.node[i], s.own[i], p)
    ensures Listens(t.node[i], t.own[i], p) && SentTo(t, i, p) == SentTo(s, i, p)
  {
    var j := Peer(i);
    if p == s.own[i].control || p == s.own[i].notification {
      SameMeaning(s.node, t.node, side, names, j, s.own[j].first);
    } else if p in s.node[i].byLocal {
      SameMeaning(s.node, t.node, side, names, i, p);
    } else if p in s.node[i].onceByLocal {
      SameMeaning(s.node, t.node, side, names, j, s.node[i].onceByLocal[p]);
    } else {
      NativeMeans(s.node, i, p);
      NativeMeans(t.node, i, p);
      UltimateIs(s.node, i, p, Ident(i, p));
      UltimateIs(t.node, i, p, Ident(i, p));
    }
  }

  /** Whatever happens, what is sent to a port goes where it went, until the port is used if it was made for a
      send-once right. */
  lemma SentToStays(s: Mail, e: MailEvent, i: Side, p: Port)
    requires MailInv(s) && CanHappen(s, e) && Listens(s.node[i], s.own[i], p)
    requires !(p in s.node[i].onceByLocal && Uses(e, i, p))
    ensures var t := Next(s, e); Listens(t.node[i], t.own[i], p) && SentTo(t, i, p) == SentTo(s, i, p)
  {
    var names := NextSameNames(s, e, i, p);
    SameSentTo(s, Next(s, e), e.side, names, i, p);
  }

  lemma {:induction false} SentToStaysLong(s: Mail, evs: seq<MailEvent>, i: Side, p: Port)
    requires MailInv(s) && MailRun(s, evs) && Listens(s.node[i], s.own[i], p)
    requires forall k :: 0 <= k < |evs| ==> !Uses(evs[k], i, p)
    ensures MailInv(MailAfter(s, evs)) && SentTo(MailAfter(s, evs), i, p) == SentTo(s, i, p)
    decreases |evs|
  {
    if evs != [] {
      NextKeeps(s, evs[0]);
      SentToStays(s, evs[0], i, p);
      SentToStaysLong(Next(s, evs[0]), evs[1..], i, p);
    }
  }

  /** The port for which the reply right of a letter is, on the receiving side. */
  function ReplyPort(s: Mail, e: MailEvent): Port
    requires e.Fetch? && |s.node| == 2 && |s.own| == 2 && |s.stream| == 2 && s.stream[Peer(e.side)] != []
    requires |e.grants| == |s.stream[Peer(e.side)][0].body| && Fetched(s, e).Relay?
  {
    if IsOnce(s.stream[Peer(e.side)][0].reply.name) then e.grant.alloc else Fetched(s, e).reply
  }

  /** The reply right has been delivered: what is sent to the port goes to what the sender meant. */
  lemma ReplyGoes(t: Mail, i: Side, x: Slot, out: Port, g: Grant, id: Ident)
    requires TwoNodes(t) && EndOk(t, i) && Stands(t.node, i, x, out, g, id)
    requires SlotDone(t.node[i], x, out, g) && x.port < LOCAL_FLAG
    requires g.alloc != t.own[i].control && g.alloc != t.own[i].notification
    ensures var p := if IsOnce(x.name) then g.alloc else out;
            Listens(t.node[i], t.own[i], p) && SentTo(t, i, p) == id
  {
    if IsOnce(x.name) {
      UltimateIs(t.node, Peer(i), t.node[i].onceByLocal[g.alloc], id);
    } else {
      UltimateIs(t.node, i, out, id);
    }
  }

  lemma ReplyStands(s: Mail, e: MailEvent)
    requires MailInv(s) && CanHappen(s, e) && e.Fetch? && Fetched(s, e).Relay?
    requires Carries(s.stream[Peer(e.side)][0].reply)
    ensures var t, p := Next(s, e), ReplyPort(s, e);
            && MailInv(t) && Listens(t.node[e.side], t.own[e.side], p)
            && SentTo(t, e.side, p) == s.stream[Peer(e.side)][0].replyMeant
  {
    var i, t := e.side, Next(s, e);
    var x := s.stream[Peer(i)][0];
    assert EndOk(s, Peer(i)) && LetterOk(s, Peer(i), x);
    FetchNode(s, e);
    FetchArrives(s, e);
    FetchKeeps(s, e);
    assert EndOk(t, i) && Free(s, i, e.grant.alloc);
    ReplyGoes(t, i, x.reply, Fetched(s, e).reply, e.grant, x.replyMeant);
  }

  /** In every run, whatever happens after a message was delivered, what is sent to its reply port goes to the port
      that its sender meant. */
  lemma RepliesGoBack(own0: Own, own1: Own, evs: seq<MailEvent>, e: MailEvent, more: seq<MailEvent>)
    requires Name(own0.first) && Name(own1.first) && MailRun(StartMail(own0, own1), evs)
    requires var s := MailAfter(StartMail(own0, own1), evs);
             && CanHappen(s, e) && e.Fetch? && Fetched(s, e).Relay? && Carries(s.stream[Peer(e.side)][0].reply)
             && MailRun(Next(s, e), more)
             && forall k :: 0 <= k < |more| ==> !Uses(more[k], e.side, ReplyPort(s, e))
    ensures var s := MailAfter(StartMail(own0, own1), evs);
            var r := MailAfter(Next(s, e), more);
            TwoNodes(r) && SentTo(r, e.side, ReplyPort(s, e)) == s.stream[Peer(e.side)][0].replyMeant
  {
    StartOk(own0, own1);
    MailRunKeeps(StartMail(own0, own1), evs);
    var s := MailAfter(StartMail(own0, own1), evs);
    ReplyStands(s, e);
    SentToStaysLong(Next(s, e), more, e.side, ReplyPort(s, e));
  }
}
