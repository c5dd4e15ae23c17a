/**
Two nodes that relay whole messages to each other: over every run of ordinary messages, where a message goes, and
what the ports it carries stand for on the other side.
*/
module NetmsgMail {
  import opened Netmsg
  import opened NetmsgMaps
  import opened NetmsgPair

  // ----- what a name stands for

  /** Proxy after proxy, `k` times, the name `p` of node `i` leads to the port `id`.  The reply port of a message is
      not translated when it is sent, so that a proxy may stand for a proxy. */
  ghost predicate Leads(ns: seq<Node>, i: Side, p: Port, id: Ident, k: nat)
    requires |ns| == 2
    decreases k
  {
    if p in ns[i].byLocal then k > 0 && Leads(ns, Peer(i), ns[i].byLocal[p], id, k - 1)
    else k == 0 && id == Ident(i, p)
  }

  ghost predicate Means(ns: seq<Node>, i: Side, p: Port, id: Ident)
    requires |ns| == 2
  {
    exists k: nat :: Leads(ns, i, p, id, k)
  }

  ghost predicate HasMeaning(ns: seq<Node>, i: Side, p: Port)
    requires |ns| == 2
  {
    exists id :: Means(ns, i, p, id)
  }

  /** The port that a name stands for in the end. */
  ghost function Ultimate(ns: seq<Node>, i: Side, p: Port): Ident
    requires |ns| == 2
  {
    if HasMeaning(ns, i, p) then var id :| Means(ns, i, p, id); id else Ident(i, p)
  }

  lemma {:induction false} LeadsOnce(ns: seq<Node>, i: Side, p: Port, id: Ident, k: nat, id': Ident, k': nat)
    requires |ns| == 2 && Leads(ns, i, p, id, k) && Leads(ns, i, p, id', k')
    ensures id == id'
    decreases k
  {
    if p in ns[i].byLocal {
      LeadsOnce(ns, Peer(i), ns[i].byLocal[p], id, k - 1, id', k' - 1);
    }
  }

  lemma MeansOne(ns: seq<Node>, i: Side, p: Port, id: Ident, id': Ident)
    requires |ns| == 2 && Means(ns, i, p, id) && Means(ns, i, p, id')
    ensures id == id'
  {
    var k: nat :| Leads(ns, i, p, id, k);
    var k': nat :| Leads(ns, i, p, id', k');
    LeadsOnce(ns, i, p, id, k, id', k');
  }

  lemma UltimateIs(ns: seq<Node>, i: Side, p: Port, id: Ident)
    requires |ns| == 2 && Means(ns, i, p, id)
    ensures Ultimate(ns, i, p) == id
  {
    MeansOne(ns, i, p, Ultimate(ns, i, p), id);
  }

  /** A proxy means what the port it stands for means. */
  lemma ProxyMeans(ns: seq<Node>, i: Side, p: Port, id: Ident)
    requires |ns| == 2 && p in ns[i].byLocal
    ensures Means(ns, i, p, id) <==> Means(ns, Peer(i), ns[i].byLocal[p], id)
  {
    if Means(ns, i, p, id) {
      var k: nat :| Leads(ns, i, p, id, k);
      assert Leads(ns, Peer(i), ns[i].byLocal[p], id, k - 1);
    }
    if Means(ns, Peer(i), ns[i].byLocal[p], id) {
      var k: nat :| Leads(ns, Peer(i), ns[i].byLocal[p], id, k);
      assert Leads(ns, i, p, id, k + 1);
    }
  }

  lemma NativeMeans(ns: seq<Node>, i: Side, p: Port)
    requires |ns| == 2 && p !in ns[i].byLocal
    ensures Means(ns, i, p, Ident(i, p))
  {
    assert Leads(ns, i, p, Ident(i, p), 0);
  }

  // ----- node `i` learns new proxies, under the names `names`

  ghost predicate Proxies(ns: seq<Node>, ms: seq<Node>, i: Side, names: set<Port>) {
    && |ns| == 2 && |ms| == 2 && ms[Peer(i)].byLocal == ns[Peer(i)].byLocal
    && (forall x :: x in ns[i].byLocal ==> x in ms[i].byLocal && ms[i].byLocal[x] == ns[i].byLocal[x])
    && (forall x :: x in ms[i].byLocal && x !in ns[i].byLocal ==> x in names)
    && (forall x :: x in names ==> x !in ns[i].byLocal)
    && (forall y :: y in ns[Peer(i)].byLocal ==> ns[Peer(i)].byLocal[y] !in names)
  }

  lemma {:induction false} LeadsStays(ns: seq<Node>, ms: seq<Node>, i: Side, names: set<Port>, a: Side, q: Port,
                                      id: Ident, k: nat)
    requires Proxies(ns, ms, i, names) && !(a == i && q in names) && Leads(ns, a, q, id, k)
    ensures Leads(ms, a, q, id, k)
    decreases k
  {
    if q in ns[a].byLocal {
      LeadsStays(ns, ms, i, names, Peer(a), ns[a].byLocal[q], id, k - 1);
    }
  }

  lemma MeansStays(ns: seq<Node>, ms: seq<Node>, i: Side, names: set<Port>, a: Side, q: Port, id: Ident)
    requires Proxies(ns, ms, i, names) && !(a == i && q in names) && Means(ns, a, q, id)
    ensures Means(ms, a, q, id)
  {
    var k: nat :| Leads(ns, a, q, id, k);
    LeadsStays(ns, ms, i, names, a, q, id, k);
  }

  /** Every name stands for some port. */
  ghost predicate Grounded(ns: seq<Node>) {
    |ns| == 2 && forall i: Side, p: Port :: HasMeaning(ns, i, p)
  }

  lemma GroundedStays(ns: seq<Node>, ms: seq<Node>, i: Side, names: set<Port>)
    requires Proxies(ns, ms, i, names) && Grounded(ns)
    ensures Grounded(ms)
  {
    forall a: Side, q: Port ensures HasMeaning(ms, a, q) {
      if a == i && q in names {
        if q in ms[i].byLocal {
          var p := ms[i].byLocal[q];
          assert HasMeaning(ns, Peer(i), p);
          var id :| Means(ns, Peer(i), p, id);
          MeansStays(ns, ms, i, names, Peer(i), p, id);
          ProxyMeans(ms, i, q, id);
        } else {
          NativeMeans(ms, i, q);
        }
      } else {
        assert HasMeaning(ns, a, q);
        var id :| Means(ns, a, q, id);
        MeansStays(ns, ms, i, names, a, q, id);
      }
    }
  }

  // ----- letters

  /** A slot that carries a right. */
  predicate Carries(x: Slot) {
    x.port != NULL && x.port != DEAD && !x.name.PortName?
  }

  predicate IsOnce(t: TypeName) {
    t.MoveSendOnce? || t.MakeSendOnce?
  }

  /** A message on its way; `meant` is the port it was sent to, `stray` that its receive right had already left
      netmsg, and the others are the ports that its sender meant by the rights it carries. */
  datatype Letter = Letter(dest: Port, translate: bool, reply: Slot, body: seq<Slot>,
                           meant: Ident, stray: bool, replyMeant: Ident, bodyMeant: seq<Ident>)

  /** `stream[i]` goes from node `i` to its peer; `own` are the ports that netmsg keeps for itself. */
  datatype Mail = Mail(node: seq<Node>, own: seq<Own>, stream: seq<seq<Letter>>)

  ghost predicate TwoNodes(s: Mail) {
    |s.node| == 2 && |s.own| == 2 && |s.stream| == 2
  }

  function StartMail(own0: Own, own1: Own): Mail {
    Mail([NewNode, NewNode], [own0, own1], [[], []])
  }

  /** The port that a message received on the port `local` of node `i` was sent to: the peer's first port for a port
      of netmsg itself, and for a port made for a send-once right whatever that is for. */
  ghost function SentTo(s: Mail, i: Side, local: Port): Ident
    requires TwoNodes(s)
  {
    if local == s.own[i].control || local == s.own[i].notification
    then Ultimate(s.node, Peer(i), s.own[Peer(i)].first)
    else if local !in s.node[i].byLocal && local in s.node[i].onceByLocal
    then Ultimate(s.node, Peer(i), s.node[i].onceByLocal[local])
    else Ultimate(s.node, i, local)
  }

  /** A port of which the receive right is not with netmsg: it has come home. */
  predicate Stray(n: Node, own: Own, local: Port) {
    && local != own.control && local != own.notification && local !in n.byLocal && local !in n.onceByLocal
    && local in n.kind && n.kind[local] != Receive
  }

  datatype MailEvent =
    | Post(side: Side, local: Port, reply: Slot, body: seq<Slot>)
    | Fetch(side: Side, grant: Grant, grants: seq<Grant>)

  predicate ReplySlot(x: Slot) {
    (x.name.MoveSend? || x.name.MoveSendOnce?) && (x.port == NULL || Name(x.port))
  }

  predicate BodySlot(x: Slot) {
    Carries(x) ==> Name(x.port)
  }

  /** The letter names a port of its sender, or of its receiver. */
  predicate NamesOfSender(x: Letter, p: Port) {
    (x.translate && x.dest == p) || x.reply.port == p || exists k :: 0 <= k < |x.body| && x.body[k].port == p
  }

  predicate NamesOfReceiver(x: Letter, p: Port) {
    (!x.translate && x.dest == p) || exists k :: 0 <= k < |x.body| && Flip(x.body[k].port) == p
  }

  /** The kernel does not hand out a name of a right that node `i` still has. */
  ghost predicate Free(s: Mail, i: Side, p: Port)
    requires TwoNodes(s)
  {
    var j := Peer(i);
    && Name(p) && p != s.own[i].control && p != s.own[i].notification && p != s.own[i].first
    && p !in s.node[i].byLocal
    && (forall y :: y in s.node[j].byLocal ==> s.node[j].byLocal[y] != p)
    && (forall y :: y in s.node[j].onceByLocal ==> s.node[j].onceByLocal[y] != p)
    && (forall k :: 0 <= k < |s.stream[i]| ==> !NamesOfSender(s.stream[i][k], p))
    && (forall k :: 0 <= k < |s.stream[j]| ==> !NamesOfReceiver(s.stream[j][k], p))
  }

  function Names(g: Grant, gs: seq<Grant>): set<Port> {
    {g.alloc} + set k | 0 <= k < |gs| :: gs[k].alloc
  }

  function Posted(s: Mail, e: MailEvent): Handled
    requires e.Post? && |s.node| == 2 && |s.own| == 2
  {
    HandleIpc(s.node[e.side], s.own[e.side], e.local, e.reply.port, OtherId, e.body)
  }

  function Fetched(s: Mail, e: MailEvent): Handled
    requires e.Fetch? && |s.node| == 2 && |s.own| == 2 && |s.stream| == 2 && s.stream[Peer(e.side)] != []
    requires |e.grants| == |s.stream[Peer(e.side)][0].body|
  {
    var x := s.stream[Peer(e.side)][0];
    HandleNet(s.node[e.side], s.own[e.side], x.dest, x.translate, OtherId, x.reply, e.grant, x.body, e.grants)
  }

  ghost predicate CanHappen(s: Mail, e: MailEvent) {
    && TwoNodes(s)
    && match e
       case Post(i, local, reply, body) =>
         && Name(local) && ReplySlot(reply) && (forall k :: 0 <= k < |body| ==> BodySlot(body[k]))
         && !Posted(s, e).Dead?
       case Fetch(i, g, gs) =>
         && s.stream[Peer(i)] != [] && |gs| == |s.stream[Peer(i)][0].body|
         && (forall p :: p in Names(g, gs) ==> Free(s, i, p))
         && Granted(s.node[i], s.stream[Peer(i)][0].body, false, gs)
         && (var r := TranslateBody(s.node[i], s.stream[Peer(i)][0].body, false, gs);
             r.Sent? ==> Unused(r.node, g.alloc))
         && !Fetched(s, e).Dead?
  }

  ghost function Written(s: Mail, e: MailEvent, h: Handled): Letter
    requires TwoNodes(s) && e.Post? && h.Relay?
  {
    var i := e.side;
    Letter(h.local, h.translate, Slot(e.reply.name, h.reply), h.body,
           SentTo(s, i, e.local), Stray(s.node[i], s.own[i], e.local),
           Ultimate(s.node, i, e.reply.port),
           seq(|e.body|, k requires 0 <= k < |e.body| => Ultimate(s.node, i, e.body[k].port)))
  }

  ghost function Next(s: Mail, e: MailEvent): Mail
    requires CanHappen(s, e)
  {
    var i := e.side;
    match e
    case Post(_, _, _, _) =>
      var h := Posted(s, e);
      s.(node := s.node[i := h.node],
         stream := if h.Relay? then s.stream[i := s.stream[i] + [Written(s, e, h)]] else s.stream)
    case Fetch(_, _, _) =>
      s.(node := s.node[i := Fetched(s, e).node], stream := s.stream[Peer(i) := s.stream[Peer(i)][1..]])
  }

  ghost predicate MailRun(s: Mail, evs: seq<MailEvent>)
    decreases |evs|
  {
    evs == [] || (CanHappen(s, evs[0]) && MailRun(Next(s, evs[0]), evs[1..]))
  }

  ghost function MailAfter(s: Mail, evs: seq<MailEvent>): Mail
    requires MailRun(s, evs)
    decreases |evs|
  {
    if evs == [] then s else MailAfter(Next(s, evs[0]), evs[1..])
  }

  // ----- the invariant

  /** A right on its way from node `i` stands for `id`. */
  ghost predicate SlotMeans(ns: seq<Node>, i: Side, x: Slot, id: Ident)
    requires |ns| == 2
  {
    if x.port >= LOCAL_FLAG then Name(Flip(x.port)) && Means(ns, Peer(i), Flip(x.port), id)
    else Name(x.port) && Means(ns, i, x.port, id)
  }

  /** Where a letter of node `i` goes stands for what it was sent to. */
  ghost predicate DestMeans(s: Mail, i: Side, x: Letter)
    requires TwoNodes(s)
  {
    if x.dest == CONTROL then !x.translate && Means(s.node, Peer(i), s.own[Peer(i)].first, x.meant)
    else Means(s.node, if x.translate then i else Peer(i), x.dest, x.meant)
  }

  ghost predicate LetterOk(s: Mail, i: Side, x: Letter)
    requires TwoNodes(s)
  {
    && (!x.stray ==> DestMeans(s, i, x))
    && (x.stray ==> !x.translate && x.dest != CONTROL && x.meant == Ident(i, x.dest))
    && ReplySlot(x.reply) && (x.reply.port != NULL ==> Means(s.node, i, x.reply.port, x.replyMeant))
    && |x.bodyMeant| == |x.body|
    && forall k :: 0 <= k < |x.body| && Carries(x.body[k]) ==> SlotMeans(s.node, i, x.body[k], x.bodyMeant[k])
  }

  ghost predicate NodeOk(n: Node) {
    && Consistent(n)
    && (forall p :: p in n.byLocal ==> Name(n.byLocal[p]))
    && (forall p :: p in n.onceByLocal ==> Name(n.onceByLocal[p]))
  }

  ghost predicate EndOk(s: Mail, i: Side)
    requires TwoNodes(s)
  {
    && NodeOk(s.node[i]) && Name(s.own[i].first)
    && s.own[i].control !in s.node[i].byLocal && s.own[i].notification !in s.node[i].byLocal
    && forall k :: 0 <= k < |s.stream[i]| ==> LetterOk(s, i, s.stream[i][k])
  }

  ghost predicate MailInv(s: Mail) {
    TwoNodes(s) && Grounded(s.node) && EndOk(s, 0) && EndOk(s, 1)
  }
}
