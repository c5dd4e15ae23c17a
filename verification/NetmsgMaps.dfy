/**
The port maps of a node stay consistent, whatever messages it relays.
*/
module NetmsgMaps {
  import opened Netmsg

  /** Each map of the pair undoes the other. */
  ghost predicate Inverse(a: map<Port, Port>, b: map<Port, Port>) {
    && (forall x | x in a :: a[x] in b && b[a[x]] == x)
    && (forall y | y in b :: b[y] in a && a[b[y]] == y)
  }

  /** Consistent, but for the entry in local_port_type of one port. */
  ghost predicate ConsistentBut(n: Node, p: Port) {
    && Inverse(n.byRemote, n.byLocal) && Inverse(n.onceByRemote, n.onceByLocal)
    && n.byLocal.Keys !! n.onceByLocal.Keys
    && n.byLocal.Keys - {p} <= n.kind.Keys
    && NULL !in n.byRemote && NULL !in n.byLocal
  }

  ghost predicate Consistent(n: Node) {
    ConsistentBut(n, NULL) && n.byLocal.Keys <= n.kind.Keys
  }

  /** The kernel hands out a name that the node does not know. */
  predicate Unused(n: Node, p: Port) {
    p != NULL && p !in n.byLocal && p !in n.onceByLocal && p !in n.kind
  }

  // ----- transmission

  lemma TransmitKeeps(n: Node, t: TypeName, p: Port, names: bool, but: Port)
    requires ConsistentBut(n, but)
    ensures var out := Transmit(n, t, p, names);
            out.Ok? ==>
                && ConsistentBut(out.node, but) && out.node == n.(kind := out.node.kind)
                && n.kind.Keys <= out.node.kind.Keys
  {
    if t.MoveSend? || t.MoveReceive? {
      KindOnlyKeeps(n, p, Send, but);
      KindOnlyKeeps(n, p, Receive, but);
    }
  }

  /** What local_port_type says of a port is not part of the consistency. */
  lemma KindOnlyKeeps(n: Node, p: Port, k: Kind, but: Port)
    requires ConsistentBut(n, but)
    ensures ConsistentBut(SetKind(n, p, k), but) && n.kind.Keys <= SetKind(n, p, k).kind.Keys
  {
  }

  lemma {:induction false} TransmitBodyKeeps(n: Node, body: seq<Slot>, names: bool, but: Port)
    requires ConsistentBut(n, but)
    ensures var r := TransmitBody(n, body, names);
            r.Sent? ==>
                ConsistentBut(r.node, but) && r.node == n.(kind := r.node.kind) && n.kind.Keys <= r.node.kind.Keys
    decreases |body|
  {
    if body != [] {
      TransmitKeeps(n, body[0].name, body[0].port, names, but);
      var out := Transmit(n, body[0].name, body[0].port, names);
      if out.Ok? {
        TransmitBodyKeeps(out.node, body[1..], names, but);
      }
    }
  }

  lemma UnmapKeeps(n: Node, p: Port)
    requires ConsistentBut(n, p)
    ensures Consistent(Unmap(n, p))
  {
  }

  lemma EndReceiveKeeps(n: Node, p: Port)
    requires Consistent(n)
    ensures Consistent(EndReceive(n, p))
  {
  }

  lemma HeaderKeeps(n: Node, own: Own, local: Port, reply: Port, but: Port)
    requires ConsistentBut(n, but)
    ensures var h := HeaderForTransmission(n, own, local, reply);
            (h.Relay? || h.Discard? ==>
                ConsistentBut(h.node, but) && h.node.byLocal == n.byLocal && h.node.kind == n.kind)
  {
  }

  lemma HandleIpcKeeps(n: Node, own: Own, local: Port, reply: Port, id: Id, body: seq<Slot>)
    requires Consistent(n)
    ensures var h := HandleIpc(n, own, local, reply, id, body); h.Relay? || h.Discard? ==> Consistent(h.node)
  {
    var h := HandleIpc(n, own, local, reply, id, body);
    var died := local == own.notification && local != own.control && id == DeadName;
    if h.Relay? || h.Discard? {
      var name := if died then body[0].port else NULL;
      var noted := if died then DropKind(n, name) else n;
      HeaderKeeps(noted, own, local, reply, name);
      var head := HeaderForTransmission(noted, own, local, reply);
      if head.Relay? {
        if id == NoSenders {
          EndReceiveKeeps(head.node, local);
        }
        var ended := if id == NoSenders then EndReceive(head.node, local) else head.node;
        TransmitBodyKeeps(ended, body, name != NULL, name);
        var sent := TransmitBody(ended, body, name != NULL);
        if name != NULL {
          UnmapKeeps(sent.node, name);
        }
      }
    }
  }

  // ----- reception

  lemma AddProxyKeeps(n: Node, p: Port, alloc: Port, k: Kind)
    requires Consistent(n) && Unused(n, alloc) && p != NULL && p !in n.byRemote
    ensures Consistent(AddProxy(n, p, alloc, k))
  {
  }

  lemma OnceKeeps(n: Node, p: Port, alloc: Port, once: Port)
    requires Consistent(n) && Unused(n, alloc)
    ensures var out := TranslateOnce(n, p, alloc, once); out.Ok? ==> Consistent(out.node)
  {
  }

  lemma SetKindKeeps(n: Node, p: Port, k: Kind)
    requires Consistent(n)
    ensures Consistent(SetKind(n, p, k))
  {
  }

  lemma FlaggedKeeps(n: Node, t: TypeName, p: Port)
    requires Consistent(n)
    ensures var out := TranslateFlagged(n, t, p); out.Ok? ==> Consistent(out.node)
  {
    SetKindKeeps(n, Flip(p), KindOf(n, Flip(p)));
    SetKindKeeps(n, Flip(p), Send);
  }

  lemma TranslateKeeps(n: Node, t: TypeName, p: Port, alloc: Port, once: Port)
    requires Consistent(n) && Unused(n, alloc)
    ensures var out := Translate(n, t, p, alloc, once); out.Ok? ==> Consistent(out.node)
  {
    OnceKeeps(n, p, alloc, once);
    if p in n.byRemote {
      SetKindKeeps(n, n.byRemote[p], Send);
    }
    if p != NULL && p !in n.byRemote {
      AddProxyKeeps(n, p, alloc, Send);
      AddProxyKeeps(n, p, alloc, Receive);
    }
    if p != NULL && p != DEAD && p >= LOCAL_FLAG {
      FlaggedKeeps(n, t, p);
    }
  }

  /** Every name handed out while the body is translated is unused at the time. */
  ghost predicate Granted(n: Node, body: seq<Slot>, names: bool, grants: seq<Grant>)
    requires |grants| == |body|
    decreases |body|
  {
    body == [] ||
    (&& Unused(n, grants[0].alloc)
     && var out := TranslateSlot(n, body[0], names, grants[0]);
        out.Ok? ==> Granted(out.node, body[1..], names, grants[1..]))
  }

  lemma {:induction false} TranslateBodyKeeps(n: Node, body: seq<Slot>, names: bool, grants: seq<Grant>)
    requires |grants| == |body| && Consistent(n) && Granted(n, body, names, grants)
    ensures var r := TranslateBody(n, body, names, grants); r.Sent? ==> Consistent(r.node)
    decreases |body|
  {
    if body != [] {
      TranslateKeeps(n, body[0].name, body[0].port, grants[0].alloc, grants[0].once);
      var out := TranslateSlot(n, body[0], names, grants[0]);
      if out.Ok? {
        TranslateBodyKeeps(out.node, body[1..], names, grants[1..]);
      }
    }
  }

  lemma HandleNetKeeps(n: Node, own: Own, local: Port, translate: bool, id: Id, reply: Slot, g: Grant,
                       body: seq<Slot>, grants: seq<Grant>)
    requires |grants| == |body| && Consistent(n)
    requires var names := local == CONTROL && id == DeadName;
             Granted(n, body, names, grants) &&
             var r := TranslateBody(n, body, names, grants); r.Sent? ==> Unused(r.node, g.alloc)
    ensures var h := HandleNet(n, own, local, translate, id, reply, g, body, grants);
            h.Relay? || h.Discard? ==> Consistent(h.node)
  {
    var names := local == CONTROL && id == DeadName;
    TranslateBodyKeeps(n, body, names, grants);
    var r := TranslateBody(n, body, names, grants);
    if r.Sent? {
      TranslateKeeps(r.node, reply.name, reply.port, g.alloc, g.once);
      UnmapAllKeeps(r.node);
    }
  }

  lemma UnmapAllKeeps(n: Node)
    requires Consistent(n)
    ensures forall p: Port :: Consistent(Unmap(DropKind(n, p), p))
  {
    forall p: Port ensures Consistent(Unmap(DropKind(n, p), p)) {
      UnmapKeeps(DropKind(n, p), p);
    }
  }

  // ----- runs

  datatype Event =
    | Ipc(local: Port, reply: Port, id: Id, body: seq<Slot>)
    | Net(local: Port, translate: bool, id: Id, replyTo: Slot, grant: Grant, body: seq<Slot>, grants: seq<Grant>)

  predicate Shaped(e: Event) {
    e.Net? ==> |e.grants| == |e.body|
  }

  function Handle(n: Node, own: Own, e: Event): Handled
    requires Shaped(e)
  {
    match e
    case Ipc(local, reply, id, body) => HandleIpc(n, own, local, reply, id, body)
    case Net(local, translate, id, reply, g, body, grants) =>
      HandleNet(n, own, local, translate, id, reply, g, body, grants)
  }

  /** The names that the kernel hands out during `e` are unused. */
  ghost predicate Honest(n: Node, e: Event)
    requires Shaped(e)
  {
    e.Net? ==>
      var names := e.local == CONTROL && e.id == DeadName;
      Granted(n, e.body, names, e.grants) &&
      var r := TranslateBody(n, e.body, names, e.grants); r.Sent? ==> Unused(r.node, e.grant.alloc)
  }

  /** A run that has not stopped. */
  ghost predicate Runs(n: Node, own: Own, evs: seq<Event>)
    decreases |evs|
  {
    evs == [] ||
    (Shaped(evs[0]) && Honest(n, evs[0]) && !Handle(n, own, evs[0]).Dead? &&
     Runs(Handle(n, own, evs[0]).node, own, evs[1..]))
  }

  ghost function Final(n: Node, own: Own, evs: seq<Event>): Node
    requires Runs(n, own, evs)
    decreases |evs|
  {
    if evs == [] then n else Final(Handle(n, own, evs[0]).node, own, evs[1..])
  }

  lemma {:induction false} RunKeeps(n: Node, own: Own, evs: seq<Event>)
    requires Consistent(n) && Runs(n, own, evs)
    ensures Consistent(Final(n, own, evs))
    decreases |evs|
  {
    if evs != [] {
      var e := evs[0];
      match e {
        case Ipc(local, reply, id, body) => HandleIpcKeeps(n, own, local, reply, id, body);
        case Net(local, translate, id, reply, g, body, grants) =>
          HandleNetKeeps(n, own, local, translate, id, reply, g, body, grants);
      }
      RunKeeps(Handle(n, own, e).node, own, evs[1..]);
    }
  }

  /** In every state a node reaches, from no entries or from the server's single one for its first
      port, the maps are mutual inverses in pairs, their local sides are apart, and every proxy has an
      entry in local_port_type. */
  lemma MapsAreConsistent(own: Own, server: bool, evs: seq<Event>)
    requires Runs(if server then SetKind(NewNode, own.first, Send) else NewNode, own, evs)
    ensures var n := Final(if server then SetKind(NewNode, own.first, Send) else NewNode, own, evs);
            && Inverse(n.byRemote, n.byLocal) && Inverse(n.onceByRemote, n.onceByLocal)
            && n.byLocal.Keys !! n.onceByLocal.Keys && n.byLocal.Keys <= n.kind.Keys
  {
    RunKeeps(if server then SetKind(NewNode, own.first, Send) else NewNode, own, evs);
  }
}
