/**
Every message goes where it was sent, and the ports it carries stand for what its sender meant.
*/
module NetmsgMailProof {
  import opened Netmsg
  import opened NetmsgMaps
  import opened NetmsgPair
  import opened NetmsgMail

  // ----- transmission

  /** ipcBufferHandler, for an ordinary message. */
  lemma PostShape(n: Node, own: Own, local: Port, reply: Port, body: seq<Slot>)
    ensures var h, head := HandleIpc(n, own, local, reply, OtherId, body), HeaderForTransmission(n, own, local, reply);
            && (head.Dead? ==> h.Dead?)
            && (head.Discard? ==> h == Discard(n))
            && (head.Relay? ==>
                  var r := TransmitBody(head.node, body, false);
                  h == if r.Stopped? then Dead else Relay(r.node, head.local, head.translate, reply, r.body))
  {
  }

  /** Which name the header of a message gets. */
  lemma PostHeader(n: Node, own: Own, local: Port, reply: Port)
    requires NodeOk(n) && HeaderForTransmission(n, own, local, reply).Relay?
    ensures var h := HeaderForTransmission(n, own, local, reply);
            && NodeOk(h.node) && h.node.byLocal == n.byLocal && h.node.kind == n.kind
            && (forall p :: p in h.node.onceByLocal ==> p in n.onceByLocal && h.node.onceByLocal[p] == n.onceByLocal[p])
            && (forall p :: p in n.onceByLocal && p != local ==> p in h.node.onceByLocal)
            && if local == own.control || local == own.notification then h.local == CONTROL && !h.translate
               else if local in n.byLocal then h.local == n.byLocal[local] && !h.translate
               else if local in n.onceByLocal then h.local == n.onceByLocal[local] && !h.translate
               else h.local == local && (h.translate <==> !Stray(n, own, local))
  {
  }

  lemma TransmitMeans(ns: seq<Node>, i: Side, n: Node, x: Slot)
    requires Grounded(ns) && NodeOk(n) && n.byLocal == ns[i].byLocal && BodySlot(x)
    ensures var out := Transmit(n, x.name, x.port, false);
            out.Ok? ==>
              && NodeOk(out.node) && out.node == n.(kind := out.node.kind)
              && (Carries(x) ==> SlotMeans(ns, i, Slot(x.name, out.port), Ultimate(ns, i, x.port)))
              && (!Carries(x) ==> !Carries(Slot(x.name, out.port)))
  {
    TransmitKeeps(n, x.name, x.port, false, NULL);
    assert HasMeaning(ns, i, x.port);
    if x.port in n.byLocal {
      ProxyMeans(ns, i, x.port, Ultimate(ns, i, x.port));
    }
  }

  lemma {:induction false} TransmitBodyMeans(ns: seq<Node>, i: Side, n: Node, body: seq<Slot>)
    requires Grounded(ns) && NodeOk(n) && n.byLocal == ns[i].byLocal
    requires forall k :: 0 <= k < |body| ==> BodySlot(body[k])
    ensures var r := TransmitBody(n, body, false);
            r.Sent? ==>
              && NodeOk(r.node) && r.node == n.(kind := r.node.kind)
              && forall k :: 0 <= k < |body| && Carries(r.body[k]) ==>
                   SlotMeans(ns, i, r.body[k], Ultimate(ns, i, body[k].port))
    decreases |body|
  {
    if body != [] {
      TransmitMeans(ns, i, n, body[0]);
      var out := Transmit(n, body[0].name, body[0].port, false);
      if out.Ok? {
        TransmitBodyMeans(ns, i, out.node, body[1..]);
      }
    }
  }

  // ----- what was on its way stays right

  lemma SlotStays(ns: seq<Node>, ms: seq<Node>, i: Side, names: set<Port>, a: Side, x: Slot, id: Ident)
    requires Proxies(ns, ms, i, names) && SlotMeans(ns, a, x, id)
    requires if a == i then x.port !in names else Flip(x.port) !in names
    ensures SlotMeans(ms, a, x, id)
  {
    if x.port >= LOCAL_FLAG {
      MeansStays(ns, ms, i, names, Peer(a), Flip(x.port), id);
    } else {
      MeansStays(ns, ms, i, names, a, x.port, id);
    }
  }

  /** The names that node `i` gets are none of those that the letter names on that side. */
  ghost predicate Unnamed(x: Letter, own: bool, names: set<Port>) {
    forall p :: p in names ==> if own then !NamesOfSender(x, p) else !NamesOfReceiver(x, p)
  }

  lemma LetterStays(s: Mail, t: Mail, i: Side, names: set<Port>, a: Side, x: Letter)
    requires TwoNodes(s) && TwoNodes(t) && t.own == s.own && Proxies(s.node, t.node, i, names)
    requires LetterOk(s, a, x) && Unnamed(x, a == i, names) && s.own[i].first !in names
    ensures LetterOk(t, a, x)
  {
    if !x.stray {
      if x.dest == CONTROL {
        MeansStays(s.node, t.node, i, names, Peer(a), s.own[Peer(a)].first, x.meant);
      } else {
        MeansStays(s.node, t.node, i, names, if x.translate then a else Peer(a), x.dest, x.meant);
      }
    }
    if x.reply.port != NULL {
      MeansStays(s.node, t.node, i, names, a, x.reply.port, x.replyMeant);
    }
    forall k | 0 <= k < |x.body| && Carries(x.body[k]) ensures SlotMeans(t.node, a, x.body[k], x.bodyMeant[k]) {
      SlotStays(s.node, t.node, i, names, a, x.body[k], x.bodyMeant[k]);
    }
  }

  /** All letters that are on their way before and after. */
  lemma LettersStay(s: Mail, t: Mail, i: Side, names: set<Port>, a: Side)
    requires TwoNodes(s) && TwoNodes(t) && t.own == s.own && Proxies(s.node, t.node, i, names)
    requires EndOk(s, a) && s.own[i].first !in names
    requires forall k :: 0 <= k < |s.stream[a]| ==> Unnamed(s.stream[a][k], a == i, names)
    ensures forall k :: 0 <= k < |s.stream[a]| ==> LetterOk(t, a, s.stream[a][k])
  {
    forall k | 0 <= k < |s.stream[a]| ensures LetterOk(t, a, s.stream[a][k]) {
      LetterStays(s, t, i, names, a, s.stream[a][k]);
    }
  }

  // ----- posting a message

  lemma PostNode(s: Mail, e: MailEvent)
    requires MailInv(s) && CanHappen(s, e) && e.Post?
    ensures var n := Posted(s, e).node;
            NodeOk(n) && n.byLocal == s.node[e.side].byLocal && Proxies(s.node, s.node[e.side := n], e.side, {})
  {
    var i := e.side;
    assert EndOk(s, i);
    PostShape(s.node[i], s.own[i], e.local, e.reply.port, e.body);
    if Posted(s, e).Relay? {
      PostHeader(s.node[i], s.own[i], e.local, e.reply.port);
      var head := HeaderForTransmission(s.node[i], s.own[i], e.local, e.reply.port);
      TransmitBodyMeans(s.node, i, head.node, e.body);
    }
  }

  /** The letter is right when it is written. */
  lemma WrittenOk(s: Mail, e: MailEvent)
    requires MailInv(s) && CanHappen(s, e) && e.Post? && Posted(s, e).Relay?
    ensures LetterOk(s, e.side, Written(s, e, Posted(s, e)))
  {
    var i, h := e.side, Posted(s, e);
    assert EndOk(s, i) && EndOk(s, Peer(i));
    PostShape(s.node[i], s.own[i], e.local, e.reply.port, e.body);
    PostHeader(s.node[i], s.own[i], e.local, e.reply.port);
    var head := HeaderForTransmission(s.node[i], s.own[i], e.local, e.reply.port);
    TransmitBodyMeans(s.node, i, head.node, e.body);
    assert HasMeaning(s.node, i, e.reply.port);
    DestOk(s, i, e.local, head);
  }

  lemma DestOk(s: Mail, i: Side, local: Port, head: Handled)
    requires MailInv(s) && Name(local) && head.Relay?
    requires exists reply :: head == HeaderForTransmission(s.node[i], s.own[i], local, reply)
    ensures var to := SentTo(s, i, local);
            if Stray(s.node[i], s.own[i], local)
            then to == Ident(i, head.local) && !head.translate && head.local != CONTROL
            else if head.local == CONTROL
            then !head.translate && Means(s.node, Peer(i), s.own[Peer(i)].first, to)
            else Means(s.node, if head.translate then i else Peer(i), head.local, to)
  {
    var n, j := s.node[i], Peer(i);
    assert EndOk(s, i);
    var reply :| head == HeaderForTransmission(s.node[i], s.own[i], local, reply);
    PostHeader(n, s.own[i], local, reply);
    assert HasMeaning(s.node, i, local) && HasMeaning(s.node, j, s.own[j].first);
    if local in n.byLocal {
      ProxyMeans(s.node, i, local, Ultimate(s.node, i, local));
    } else {
      NativeMeans(s.node, i, local);
      UltimateIs(s.node, i, local, Ident(i, local));
    }
    if local in n.onceByLocal {
      assert HasMeaning(s.node, j, n.onceByLocal[local]);
    }
  }

  lemma PostKeeps(s: Mail, e: MailEvent)
    requires MailInv(s) && CanHappen(s, e) && e.Post?
    ensures MailInv(Next(s, e))
  {
    var i, t, h := e.side, Next(s, e), Posted(s, e);
    PostNode(s, e);
    GroundedStays(s.node, t.node, i, {});
    LettersStay(s, t, i, {}, 0);
    LettersStay(s, t, i, {}, 1);
    if h.Relay? {
      WrittenOk(s, e);
      LetterStays(s, t, i, {}, i, Written(s, e, h));
    }
    assert EndOk(t, i) && EndOk(t, Peer(i));
  }

  // ----- reception

  /** `m` is `n` with more entries, under the names `names`. */
  ghost predicate Grown(n: Node, m: Node, names: set<Port>) {
    && (forall x :: x in n.byLocal ==> x in m.byLocal && m.byLocal[x] == n.byLocal[x])
    && (forall x :: x in m.byLocal && x !in n.byLocal ==> x in names && x !in n.kind && x !in n.onceByLocal)
    && (forall x :: x in n.byRemote ==> x in m.byRemote && m.byRemote[x] == n.byRemote[x])
    && (forall x :: x in n.onceByLocal ==> x in m.onceByLocal && m.onceByLocal[x] == n.onceByLocal[x])
    && (forall x :: x in m.onceByLocal && x !in n.onceByLocal ==> x in names && x !in n.kind && x !in n.byLocal)
    && n.kind.Keys <= m.kind.Keys
  }

  lemma GrownTwice(n: Node, m: Node, r: Node, a: set<Port>, b: set<Port>)
    requires Grown(n, m, a) && Grown(m, r, b)
    ensures Grown(n, r, a + b)
  {
  }

  /** The right in a slot has been translated: the port `out` of `m` stands for it, or is the node's own; a
      send-once right is for the port that was made for it. */
  ghost predicate SlotDone(m: Node, x: Slot, out: Port, g: Grant) {
    if x.port >= LOCAL_FLAG then out == Flip(x.port) && !IsOnce(x.name)
    else if IsOnce(x.name) then out == g.once && g.alloc in m.onceByLocal && m.onceByLocal[g.alloc] == x.port
    else out in m.byLocal && m.byLocal[out] == x.port
  }

  lemma SlotDoneStays(m: Node, r: Node, names: set<Port>, x: Slot, out: Port, g: Grant)
    requires SlotDone(m, x, out, g) && Grown(m, r, names)
    ensures SlotDone(r, x, out, g)
  {
  }

  /** A slot as it is on its way. */
  predicate WireSlot(x: Slot) {
    Carries(x) ==> Name(if x.port >= LOCAL_FLAG then Flip(x.port) else x.port)
  }

  /** What translating one slot comes to. */
  ghost predicate Done(n: Node, x: Slot, g: Grant, out: Translated) {
    out.Ok? ==>
      && NodeOk(out.node) && Grown(n, out.node, {g.alloc})
      && (Carries(x) ==> SlotDone(out.node, x, out.port, g))
  }

  lemma FlaggedDone(n: Node, x: Slot, g: Grant)
    requires NodeOk(n) && Carries(x) && x.port >= LOCAL_FLAG
    ensures Done(n, x, g, TranslateFlagged(n, x.name, x.port))
  {
    KindGrown(n, Flip(x.port), KindOf(n, Flip(x.port)), {g.alloc});
    KindGrown(n, Flip(x.port), Send, {g.alloc});
  }

  lemma KnownDone(n: Node, x: Slot, g: Grant)
    requires NodeOk(n) && Carries(x) && Name(x.port) && !IsOnce(x.name) && x.port in n.byRemote
    ensures Done(n, x, g, Translate(n, x.name, x.port, g.alloc, g.once))
  {
    var local := n.byRemote[x.port];
    KindGrown(n, local, Send, {g.alloc});
    assert Translate(n, x.name, x.port, g.alloc, g.once) in {Halt, Ok(n, local), Ok(SetKind(n, local, Send), local)};
  }

  lemma NewDone(n: Node, x: Slot, g: Grant)
    requires NodeOk(n) && Unused(n, g.alloc) && Carries(x) && Name(x.port) && !IsOnce(x.name)
    requires x.port !in n.byRemote
    ensures Done(n, x, g, Translate(n, x.name, x.port, g.alloc, g.once))
  {
    var k := if x.name.MoveReceive? then Send else Receive;
    ProxyGrown(n, x.port, g.alloc, k);
    assert Translate(n, x.name, x.port, g.alloc, g.once) == Ok(AddProxy(n, x.port, g.alloc, k), g.alloc);
  }

  lemma TranslateDone(n: Node, x: Slot, g: Grant)
    requires NodeOk(n) && Unused(n, g.alloc) && WireSlot(x)
    ensures Done(n, x, g, TranslateSlot(n, x, false, g))
  {
    if !Carries(x) {
      KindGrown(n, NULL, Send, {g.alloc});
    } else if x.port >= LOCAL_FLAG {
      FlaggedDone(n, x, g);
    } else if IsOnce(x.name) {
      OnceGrown(n, x, g);
    } else if x.port in n.byRemote {
      KnownDone(n, x, g);
    } else {
      NewDone(n, x, g);
    }
  }

  lemma KindGrown(n: Node, p: Port, k: Kind, names: set<Port>)
    requires NodeOk(n)
    ensures NodeOk(SetKind(n, p, k)) && Grown(n, SetKind(n, p, k), names) && Grown(n, n, names)
  {
  }

  lemma ProxyGrown(n: Node, p: Port, alloc: Port, k: Kind)
    requires NodeOk(n) && Unused(n, alloc) && Name(p) && p !in n.byRemote
    ensures NodeOk(AddProxy(n, p, alloc, k)) && Grown(n, AddProxy(n, p, alloc, k), {alloc})
  {
    AddProxyKeeps(n, p, alloc, k);
  }

  lemma OnceGrown(n: Node, x: Slot, g: Grant)
    requires NodeOk(n) && Unused(n, g.alloc) && Name(x.port)
    ensures var out := TranslateOnce(n, x.port, g.alloc, g.once);
            out.Ok? ==> NodeOk(out.node) && Grown(n, out.node, {g.alloc})
  {
    OnceKeeps(n, x.port, g.alloc, g.once);
  }

  function Allocs(gs: seq<Grant>): set<Port> {
    set k | 0 <= k < |gs| :: gs[k].alloc
  }

  lemma AllocsFirst(gs: seq<Grant>)
    requires gs != []
    ensures Allocs(gs) == {gs[0].alloc} + Allocs(gs[1..])
  {
    forall p | p in Allocs(gs) ensures p in {gs[0].alloc} + Allocs(gs[1..]) {
      var k :| 0 <= k < |gs| && gs[k].alloc == p;
      assert k > 0 ==> gs[1..][k - 1].alloc == p;
    }
    forall p | p in Allocs(gs[1..]) ensures p in Allocs(gs) {
      var k :| 0 <= k < |gs| - 1 && gs[1..][k].alloc == p;
      assert gs[k + 1].alloc == p;
    }
  }

  /** What translating a body comes to. */
  ghost predicate BodyDone(n: Node, body: seq<Slot>, gs: seq<Grant>, r: Relayed)
    requires |gs| == |body|
  {
    r.Sent? ==>
      && NodeOk(r.node) && Grown(n, r.node, Allocs(gs)) && |r.body| == |body|
      && forall k :: 0 <= k < |body| && Carries(body[k]) ==> SlotDone(r.node, body[k], r.body[k].port, gs[k])
  }

  lemma {:induction false} TranslateBodyDone(n: Node, body: seq<Slot>, gs: seq<Grant>)
    requires |gs| == |body| && NodeOk(n) && Granted(n, body, false, gs)
    requires forall k :: 0 <= k < |body| ==> WireSlot(body[k])
    ensures BodyDone(n, body, gs, TranslateBody(n, body, false, gs))
    decreases |body|
  {
    if body != [] {
      var out := TranslateSlot(n, body[0], false, gs[0]);
      TranslateDone(n, body[0], gs[0]);
      if out.Ok? {
        TranslateBodyDone(out.node, body[1..], gs[1..]);
        var r := TranslateBody(out.node, body[1..], false, gs[1..]);
        if r.Sent? {
          OneMoreDone(n, body, gs, out, r);
        }
      }
    }
  }

  lemma OneMoreDone(n: Node, body: seq<Slot>, gs: seq<Grant>, out: Translated, r: Relayed)
    requires |gs| == |body| && body != [] && out.Ok? && Done(n, body[0], gs[0], out)
    requires r.Sent? && BodyDone(out.node, body[1..], gs[1..], r)
    ensures BodyDone(n, body, gs, Sent(r.node, [Slot(body[0].name, out.port)] + r.body))
  {
    AllocsFirst(gs);
    GrownTwice(n, out.node, r.node, {gs[0].alloc}, Allocs(gs[1..]));
    if Carries(body[0]) {
      SlotDoneStays(out.node, r.node, Allocs(gs[1..]), body[0], out.port, gs[0]);
    }
    AllSlotsDone(r.node, body, gs, Slot(body[0].name, out.port), r.body);
  }

  lemma AllSlotsDone(m: Node, body: seq<Slot>, gs: seq<Grant>, first: Slot, rest: seq<Slot>)
    requires |gs| == |body| && body != [] && |rest| == |body| - 1
    requires Carries(body[0]) ==> SlotDone(m, body[0], first.port, gs[0])
    requires forall k :: 0 <= k < |rest| && Carries(body[1..][k]) ==>
               SlotDone(m, body[1..][k], rest[k].port, gs[1..][k])
    ensures forall k :: 0 <= k < |body| && Carries(body[k]) ==>
              SlotDone(m, body[k], ([first] + rest)[k].port, gs[k])
  {
    forall k | 0 <= k < |body| && Carries(body[k]) ensures SlotDone(m, body[k], ([first] + rest)[k].port, gs[k]) {
      if k > 0 {
        assert body[k] == body[1..][k - 1] && gs[k] == gs[1..][k - 1];
      }
    }
  }

  /** tcpBufferHandler, for an ordinary message. */
  lemma FetchShape(n: Node, own: Own, x: Letter, g: Grant, gs: seq<Grant>)
    requires |gs| == |x.body| && ReplySlot(x.reply)
    ensures var h, r := HandleNet(n, own, x.dest, x.translate, OtherId, x.reply, g, x.body, gs),
                        TranslateBody(n, x.body, false, gs);
            && (r.Stopped? ==> h.Dead?)
            && (r.Sent? && h.Discard? ==> h.node == r.node && x.translate && x.dest !in r.node.byRemote)
            && (r.Sent? && h.Relay? ==>
                  var out := TranslateSlot(r.node, x.reply, false, g);
                  && out.Ok? && h.node == out.node && h.reply == out.port && h.body == r.body
                  && (x.dest == CONTROL ==> h.local == own.first)
                  && (x.dest != CONTROL && !x.translate ==> h.local == x.dest)
                  && (x.dest != CONTROL && x.translate ==>
                        x.dest in r.node.byRemote && h.local == r.node.byRemote[x.dest]))
  {
  }

  /** What a reception does to its node. */
  lemma FetchNode(s: Mail, e: MailEvent)
    requires MailInv(s) && CanHappen(s, e) && e.Fetch?
    ensures var i, x, n := e.side, s.stream[Peer(e.side)][0], Fetched(s, e).node;
            && NodeOk(n) && Grown(s.node[i], n, Names(e.grant, e.grants))
            && Proxies(s.node, s.node[i := n], i, Names(e.grant, e.grants))
            && (Fetched(s, e).Relay? ==>
                  && (Carries(x.reply) ==> SlotDone(n, x.reply, Fetched(s, e).reply, e.grant))
                  && |Fetched(s, e).body| == |x.body|
                  && forall k :: 0 <= k < |x.body| && Carries(x.body[k]) ==>
                       SlotDone(n, x.body[k], Fetched(s, e).body[k].port, e.grants[k]))
  {
    var i, j := e.side, Peer(e.side);
    var x, g, gs := s.stream[j][0], e.grant, e.grants;
    assert EndOk(s, i) && EndOk(s, j) && LetterOk(s, j, x);
    FetchShape(s.node[i], s.own[i], x, g, gs);
    TranslateBodyDone(s.node[i], x.body, gs);
    var r := TranslateBody(s.node[i], x.body, false, gs);
    assert Names(g, gs) == Allocs(gs) + {g.alloc};
    if Fetched(s, e).Relay? {
      TranslateDone(r.node, x.reply, g);
      var out := TranslateSlot(r.node, x.reply, false, g);
      GrownTwice(s.node[i], r.node, out.node, Allocs(gs), {g.alloc});
      forall k | 0 <= k < |x.body| && Carries(x.body[k])
        ensures SlotDone(out.node, x.body[k], r.body[k].port, gs[k]) {
        SlotDoneStays(r.node, out.node, {g.alloc}, x.body[k], r.body[k].port, gs[k]);
      }
    }
    FreeProxies(s, i, Fetched(s, e).node, Names(g, gs));
  }

  lemma FreeProxies(s: Mail, i: Side, n: Node, names: set<Port>)
    requires TwoNodes(s) && Grown(s.node[i], n, names) && forall p :: p in names ==> Free(s, i, p)
    ensures Proxies(s.node, s.node[i := n], i, names)
  {
  }

  lemma FreeUnnamed(s: Mail, i: Side, names: set<Port>, a: Side)
    requires TwoNodes(s) && forall p :: p in names ==> Free(s, i, p)
    ensures s.own[i].first !in names
    ensures forall k :: 0 <= k < |s.stream[a]| ==> Unnamed(s.stream[a][k], a == i, names)
  {
  }

  lemma FetchEnd(s: Mail, t: Mail, i: Side, names: set<Port>, a: Side)
    requires TwoNodes(s) && TwoNodes(t) && t.own == s.own && EndOk(s, a) && NodeOk(t.node[a])
    requires Proxies(s.node, t.node, i, names) && forall p :: p in names ==> Free(s, i, p)
    requires t.stream[a] == s.stream[a] || (s.stream[a] != [] && t.stream[a] == s.stream[a][1..])
    ensures EndOk(t, a)
  {
    FreeUnnamed(s, i, names, a);
    LettersStay(s, t, i, names, a);
    OwnStays(s, t, i, names, a);
    var shift := if t.stream[a] == s.stream[a] then 0 else 1;
    assert forall k :: 0 <= k < |t.stream[a]| ==> t.stream[a][k] == s.stream[a][k + shift];
  }

  lemma OwnStays(s: Mail, t: Mail, i: Side, names: set<Port>, a: Side)
    requires TwoNodes(s) && TwoNodes(t) && t.own == s.own && Proxies(s.node, t.node, i, names)
    requires s.own[a].control !in s.node[a].byLocal && s.own[a].notification !in s.node[a].byLocal
    requires forall p :: p in names ==> Free(s, i, p)
    ensures t.own[a].control !in t.node[a].byLocal && t.own[a].notification !in t.node[a].byLocal
  {
  }

  lemma FetchKeeps(s: Mail, e: MailEvent)
    requires MailInv(s) && CanHappen(s, e) && e.Fetch?
    ensures MailInv(Next(s, e))
  {
    var t := Next(s, e);
    FetchNode(s, e);
    GroundedStays(s.node, t.node, e.side, Names(e.grant, e.grants));
    assert EndOk(s, Peer(e.side));
    FetchEnd(s, t, e.side, Names(e.grant, e.grants), e.side);
    FetchEnd(s, t, e.side, Names(e.grant, e.grants), Peer(e.side));
    assert EndOk(t, 0) && EndOk(t, 1);
  }

  // ----- the theorem

  /** The right `x`, delivered on node `i` under the name `out`, stands for `id`; a send-once right, for which a port
      was made, if what is sent to that port goes to `id`. */
  ghost predicate Stands(ns: seq<Node>, i: Side, x: Slot, out: Port, g: Grant, id: Ident)
    requires |ns| == 2
  {
    if IsOnce(x.name)
    then out == g.once && g.alloc in ns[i].onceByLocal && Means(ns, Peer(i), ns[i].onceByLocal[g.alloc], id)
    else Means(ns, i, out, id)
  }

  lemma SlotStands(ns: seq<Node>, i: Side, x: Slot, out: Port, g: Grant, id: Ident)
    requires |ns| == 2 && SlotDone(ns[i], x, out, g) && SlotMeans(ns, Peer(i), x, id)
    ensures Stands(ns, i, x, out, g, id)
  {
    if x.port < LOCAL_FLAG && !IsOnce(x.name) {
      ProxyMeans(ns, i, out, id);
    }
  }

  /** The message handed to the kernel goes to the port it was sent to, unless that port's receive right had come
      home before it was relayed: then it goes to the receiver's port of the same number.  Its reply port, and
      every right in its body, stand for what the sender meant. */
  ghost predicate Arrives(s: Mail, t: Mail, e: MailEvent)
    requires TwoNodes(s) && TwoNodes(t) && e.Fetch? && s.stream[Peer(e.side)] != []
    requires |e.grants| == |s.stream[Peer(e.side)][0].body| && Fetched(s, e).Relay?
  {
    var i, x, h := e.side, s.stream[Peer(e.side)][0], Fetched(s, e);
    && (if x.stray then h.local == x.dest && x.meant == Ident(Peer(i), x.dest) else Means(t.node, i, h.local, x.meant))
    && (Carries(x.reply) ==> Stands(t.node, i, x.reply, h.reply, e.grant, x.replyMeant))
    && |h.body| == |x.body| == |x.bodyMeant|
    && forall k :: 0 <= k < |x.body| && Carries(x.body[k]) ==>
         Stands(t.node, i, x.body[k], h.body[k].port, e.grants[k], x.bodyMeant[k])
  }

  /** The letter is still right when it has been taken. */
  lemma TakenOk(s: Mail, e: MailEvent)
    requires MailInv(s) && CanHappen(s, e) && e.Fetch?
    ensures LetterOk(Next(s, e), Peer(e.side), s.stream[Peer(e.side)][0])
  {
    var i, j, names := e.side, Peer(e.side), Names(e.grant, e.grants);
    FetchNode(s, e);
    FreeUnnamed(s, i, names, j);
    assert EndOk(s, j) && LetterOk(s, j, s.stream[j][0]);
    LetterStays(s, Next(s, e), i, names, j, s.stream[j][0]);
  }

  lemma FetchArrives(s: Mail, e: MailEvent)
    requires MailInv(s) && CanHappen(s, e) && e.Fetch? && Fetched(s, e).Relay?
    ensures Arrives(s, Next(s, e), e)
  {
    var t, x, h := Next(s, e), s.stream[Peer(e.side)][0], Fetched(s, e);
    TakenOk(s, e);
    DestArrives(s, t, e);
    FetchNode(s, e);
    RightsArrive(t, e.side, x, h, e.grant, e.grants);
  }

  lemma RightsArrive(t: Mail, i: Side, x: Letter, h: Handled, g: Grant, gs: seq<Grant>)
    requires TwoNodes(t) && LetterOk(t, Peer(i), x) && h.Relay? && |h.body| == |gs| == |x.body|
    requires Carries(x.reply) ==> SlotDone(t.node[i], x.reply, h.reply, g)
    requires forall k :: 0 <= k < |x.body| && Carries(x.body[k]) ==>
               SlotDone(t.node[i], x.body[k], h.body[k].port, gs[k])
    ensures Carries(x.reply) ==> Stands(t.node, i, x.reply, h.reply, g, x.replyMeant)
    ensures forall k :: 0 <= k < |x.body| && Carries(x.body[k]) ==>
              Stands(t.node, i, x.body[k], h.body[k].port, gs[k], x.bodyMeant[k])
  {
    if Carries(x.reply) {
      SlotStands(t.node, i, x.reply, h.reply, g, x.replyMeant);
    }
    BodyStands(t, i, x, h.body, gs);
  }

  lemma BodyStands(t: Mail, i: Side, x: Letter, out: seq<Slot>, gs: seq<Grant>)
    requires TwoNodes(t) && LetterOk(t, Peer(i), x) && |out| == |gs| == |x.body|
    requires forall k :: 0 <= k < |x.body| && Carries(x.body[k]) ==> SlotDone(t.node[i], x.body[k], out[k].port, gs[k])
    ensures forall k :: 0 <= k < |x.body| && Carries(x.body[k]) ==>
              Stands(t.node, i, x.body[k], out[k].port, gs[k], x.bodyMeant[k])
  {
    forall k | 0 <= k < |x.body| && Carries(x.body[k])
      ensures Stands(t.node, i, x.body[k], out[k].port, gs[k], x.bodyMeant[k]) {
      SlotStands(t.node, i, x.body[k], out[k].port, gs[k], x.bodyMeant[k]);
    }
  }

  lemma DestArrives(s: Mail, t: Mail, e: MailEvent)
    requires MailInv(s) && CanHappen(s, e) && e.Fetch? && Fetched(s, e).Relay? && t == Next(s, e)
    requires LetterOk(t, Peer(e.side), s.stream[Peer(e.side)][0])
    ensures var i, x, h := e.side, s.stream[Peer(e.side)][0], Fetched(s, e);
            if x.stray then h.local == x.dest else Means(t.node, i, h.local, x.meant)
  {
    var i, x, h := e.side, s.stream[Peer(e.side)][0], Fetched(s, e);
    assert EndOk(s, i) && EndOk(s, Peer(i)) && LetterOk(s, Peer(i), x);
    FetchDest(s.node[i], s.own[i], x, e.grant, e.grants);
    if !x.stray && x.dest != CONTROL && x.translate {
      ProxyMeans(t.node, i, h.local, x.meant);
    }
  }

  /** Which name the header of a message is given on the other side. */
  lemma FetchDest(n: Node, own: Own, x: Letter, g: Grant, gs: seq<Grant>)
    requires NodeOk(n) && |gs| == |x.body| && ReplySlot(x.reply) && Granted(n, x.body, false, gs)
    requires forall k :: 0 <= k < |x.body| ==> WireSlot(x.body[k])
    requires var r := TranslateBody(n, x.body, false, gs); r.Sent? ==> Unused(r.node, g.alloc)
    ensures var h := HandleNet(n, own, x.dest, x.translate, OtherId, x.reply, g, x.body, gs);
            h.Relay? ==>
              if x.dest == CONTROL then h.local == own.first
              else if x.translate then h.local in h.node.byLocal && h.node.byLocal[h.local] == x.dest
              else h.local == x.dest
  {
    FetchShape(n, own, x, g, gs);
    TranslateBodyDone(n, x.body, gs);
    var r := TranslateBody(n, x.body, false, gs);
    if r.Sent? {
      TranslateDone(r.node, x.reply, g);
    }
  }

  lemma NextKeeps(s: Mail, e: MailEvent)
    requires MailInv(s) && CanHappen(s, e)
    ensures MailInv(Next(s, e))
  {
    if e.Post? {
      PostKeeps(s, e);
    } else {
      FetchKeeps(s, e);
    }
  }

  lemma {:induction false} MailRunKeeps(s: Mail, evs: seq<MailEvent>)
    requires MailInv(s) && MailRun(s, evs)
    ensures MailInv(MailAfter(s, evs))
    decreases |evs|
  {
    if evs != [] {
      NextKeeps(s, evs[0]);
      MailRunKeeps(Next(s, evs[0]), evs[1..]);
    }
  }

  lemma StartOk(own0: Own, own1: Own)
    requires Name(own0.first) && Name(own1.first)
    ensures MailInv(StartMail(own0, own1))
  {
    var s := StartMail(own0, own1);
    forall i: Side, p: Port ensures HasMeaning(s.node, i, p) {
      NativeMeans(s.node, i, p);
    }
    assert EndOk(s, 0) && EndOk(s, 1);
  }

  /** In every run every message that is delivered arrives. */
  lemma MailArrives(own0: Own, own1: Own, evs: seq<MailEvent>, e: MailEvent)
    requires Name(own0.first) && Name(own1.first) && MailRun(StartMail(own0, own1), evs)
    requires var s := MailAfter(StartMail(own0, own1), evs); CanHappen(s, e) && e.Fetch? && Fetched(s, e).Relay?
    ensures var s := MailAfter(StartMail(own0, own1), evs); TwoNodes(s) && Arrives(s, Next(s, e), e)
  {
    StartOk(own0, own1);
    MailRunKeeps(StartMail(own0, own1), evs);
    FetchArrives(MailAfter(StartMail(own0, own1), evs), e);
  }
}
