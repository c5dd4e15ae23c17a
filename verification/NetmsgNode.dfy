/**
The netmsg object: five maps that the handlers change in place, and loops that rewrite the port arrays
of a message where they are.
*/
module NetmsgNode {
  import opened Netmsg

  /** The ports of one item of a message body. */
  function Slots(t: TypeName, ports: seq<Port>): (s: seq<Slot>)
    ensures |s| == |ports|
  {
    seq(|ports|, i requires 0 <= i < |ports| => Slot(t, ports[i]))
  }

  /** What has been done, followed by what is still to do. */
  function Followed(done: seq<Slot>, rest: Relayed): Relayed {
    if rest.Stopped? then Stopped else Sent(rest.node, done + rest.body)
  }

  class Relay {
    var byRemote: map<Port, Port>
    var byLocal: map<Port, Port>
    var kind: map<Port, Kind>
    var onceByRemote: map<Port, Port>
    var onceByLocal: map<Port, Port>

    constructor ()
      ensures View() == NewNode
    {
      byRemote, byLocal, kind, onceByRemote, onceByLocal := map[], map[], map[], map[], map[];
    }

    function View(): Node
      reads this
    {
      Node(byRemote, byLocal, kind, onceByRemote, onceByLocal)
    }

    /** One send right in translateForTransmission. */
    method TransmitSendRight(p: Port) returns (ok: bool, q: Port)
      modifies this`kind
      ensures ok == TransmitSend(old(View()), p).Ok?
      ensures ok ==> TransmitSend(old(View()), p) == Ok(View(), q)
    {
      ok, q := true, p;
      if p == NULL || p == DEAD {
        return;
      }
      if p in byLocal {
        if p !in kind || kind[p] != Receive {
          return false, p;
        }
        q := Flip(byLocal[p]);
      } else {
        kind := kind[p := Send];
      }
    }

    method TransmitReceiveRight(p: Port) returns (ok: bool, q: Port)
      modifies this`kind
      ensures ok == TransmitReceive(old(View()), p).Ok?
      ensures ok ==> TransmitReceive(old(View()), p) == Ok(View(), q)
    {
      ok, q := true, p;
      if p == NULL || p == DEAD {
        return;
      }
      if p in byLocal {
        if p !in kind || kind[p] != Send {
          return false, p;
        }
        kind := kind[p := Receive];
        q := Flip(byLocal[p]);
      } else {
        kind := kind[p := Receive];
      }
    }

    /** The case of translateForTransmission for an item of send rights. */
    method TransmitSendRights(ports: array<Port>) returns (ok: bool)
      modifies this`kind, ports
      ensures Relays(TransmitBody(old(View()), Slots(MoveSend, old(ports[..])), false), ok, View(),
        Slots(MoveSend, ports[..]))
    {
      ghost var before := ports[..];
      ghost var goal := TransmitBody(View(), Slots(MoveSend, before), false);
      var i := 0;
      Begun(MoveSend, before, View(), false);
      while i < ports.Length
        invariant i <= ports.Length
        invariant ports[i..] == before[i..]
        invariant Followed(Slots(MoveSend, ports[..i]), TransmitBody(View(), Slots(MoveSend, before[i..]), false)) ==
          goal
      {
        ghost var n, done := View(), ports[..i];
        assert ports[i] == ports[i..][0] == before[i];
        var q;
        ok, q := TransmitSendRight(ports[i]);
        OneMore(n, MoveSend, done, before, i, false, TransmitSend(n, before[i]));
        if !ok {
          return;
        }
        ports[i] := q;
        assert ports[..i + 1] == done + [q];
        assert ports[i + 1..] == before[i..][1..] == before[i + 1..];
        i := i + 1;
      }
      ok := true;
      assert ports[..i] == ports[..];
    }

    /** The loop for an item of receive rights. */
    method MoveReceiveRights(ports: array<Port>) returns (ok: bool)
      modifies this`kind, ports
      ensures Relays(TransmitBody(old(View()), Slots(MoveReceive, old(ports[..])), false), ok, View(),
        Slots(MoveReceive, ports[..]))
    {
      ghost var before := ports[..];
      ghost var goal := TransmitBody(View(), Slots(MoveReceive, before), false);
      var i := 0;
      Begun(MoveReceive, before, View(), false);
      while i < ports.Length
        invariant i <= ports.Length
        invariant ports[i..] == before[i..]
        invariant Followed(Slots(MoveReceive, ports[..i]),
          TransmitBody(View(), Slots(MoveReceive, before[i..]), false)) == goal
      {
        ghost var n, done := View(), ports[..i];
        assert ports[i] == ports[i..][0] == before[i];
        var q;
        ok, q := TransmitReceiveRight(ports[i]);
        OneMore(n, MoveReceive, done, before, i, false, TransmitReceive(n, before[i]));
        if !ok {
          return;
        }
        ports[i] := q;
        assert ports[..i + 1] == done + [q];
        assert ports[i + 1..] == before[i..][1..] == before[i + 1..];
        i := i + 1;
      }
      ok := true;
      assert ports[..i] == ports[..];
    }

    /** The case for an item of receive rights, which runs on into the one for names. */
    method TransmitReceiveRights(ports: array<Port>, names: bool) returns (ok: bool)
      modifies this`kind, ports
      ensures Relays(TransmitBody(old(View()), Slots(MoveReceive, old(ports[..])), names), ok, View(),
        Slots(MoveReceive, ports[..]))
    {
      NamesAfter(View(), View(), Slots(MoveReceive, ports[..]));
      ok := MoveReceiveRights(ports);
      if ok && names {
        ghost var moved := ports[..];
        TransmitNames(ports);
        assert ports[..] == Renamed(old(View()), moved);
        SlotsRenamed(old(View()), MoveReceive, moved);
      }
    }

    /** The case for port names: those of proxies are translated. */
    method TransmitNames(ports: array<Port>)
      modifies ports
      ensures ports[..] == Renamed(View(), old(ports[..]))
    {
      ghost var before := ports[..];
      var i := 0;
      while i < ports.Length
        invariant i <= ports.Length
        invariant forall j :: 0 <= j < i ==> ports[j] == TransmitName(View(), before[j])
        invariant forall j :: i <= j < ports.Length ==> ports[j] == before[j]
      {
        if ports[i] in byLocal {
          ports[i] := Flip(byLocal[ports[i]]);
        }
        i := i + 1;
      }
    }

    /** translatePort2. */
    method TranslatePort(t: TypeName, p: Port, alloc: Port, once: Port) returns (ok: bool, q: Port)
      modifies this
      ensures ok == Translate(old(View()), t, p, alloc, once).Ok?
      ensures ok ==> Translate(old(View()), t, p, alloc, once) == Ok(View(), q)
    {
      ok, q := true, p;
      if p == NULL || p == DEAD {
        return;
      }
      if p >= LOCAL_FLAG {
        q := Flip(p);
        if t.MoveSend? {
          if q !in kind {
            kind := kind[q := Unset];
          }
        } else if t.MoveReceive? {
          if q !in kind || kind[q] != Receive {
            return false, q;
          }
          kind := kind[q := Send];
        } else if !t.PortName? {
          return false, q;
        }
        return;
      }
      if t.MoveReceive? {
        if p in byRemote {
          q := byRemote[p];
          if q in kind && kind[q] == Send {
            return false, q;
          }
          kind := kind[q := Send];
        } else {
          byRemote, byLocal, kind := byRemote[p := alloc], byLocal[alloc := p], kind[alloc := Send];
          q := alloc;
        }
      } else if t.PortName? {
        q := if p in byRemote then byRemote[p] else NULL;
      } else if t.MoveSendOnce? || t.MakeSendOnce? {
        if p in onceByRemote {
          return false, q;
        }
        onceByRemote, onceByLocal := onceByRemote[p := alloc], onceByLocal[alloc := p];
        q := once;
      } else if p in byRemote {
        q := byRemote[p];
        if q !in kind || kind[q] != Receive {
          return false, q;
        }
      } else {
        byRemote, byLocal, kind := byRemote[p := alloc], byLocal[alloc := p], kind[alloc := Receive];
        q := alloc;
      }
    }

    /** One round of the loop of translateMessage; `before` is what the item held. */
    method TranslateAt(t: TypeName, ports: array<Port>, grants: seq<Grant>, i: nat,
        ghost before: seq<Port>) returns (ok: bool)
      requires |grants| == ports.Length == |before| && i < ports.Length && ports[i..] == before[i..]
      modifies this, ports
      ensures !ok ==> old(Followed(Slots(t, ports[..i]),
        TranslateBody(View(), Slots(t, before[i..]), true, grants[i..]))).Stopped?
      ensures ok ==> ports[i + 1..] == before[i + 1..]
      ensures ok ==> Followed(Slots(t, ports[..i + 1]),
        TranslateBody(View(), Slots(t, before[i + 1..]), true, grants[i + 1..])) ==
                     old(Followed(Slots(t, ports[..i]), TranslateBody(View(), Slots(t, before[i..]), true,
                       grants[i..])))
    {
      ghost var n, done := View(), ports[..i];
      assert ports[i] == ports[i..][0] == before[i];
      var q;
      ok, q := TranslatePort(t, ports[i], grants[i].alloc, grants[i].once);
      OneMoreReceived(n, t, done, before, i, grants, Translate(n, t, before[i], grants[i].alloc, grants[i].once));
      if ok {
        ports[i] := q;
        assert ports[..i + 1] == done + [q];
        assert ports[i + 1..] == before[i..][1..] == before[i + 1..];
      }
    }

    /** The loop of translateMessage over one item, other than names to be left alone. */
    method TranslatePorts(t: TypeName, ports: array<Port>, grants: seq<Grant>) returns (ok: bool)
      requires |grants| == ports.Length
      modifies this, ports
      ensures Relays(TranslateBody(old(View()), Slots(t, old(ports[..])), true, grants), ok, View(),
        Slots(t, ports[..]))
    {
      ghost var before := ports[..];
      ghost var goal := TranslateBody(View(), Slots(t, before), true, grants);
      var i := 0;
      assert before[0..] == before && grants[0..] == grants;
      while i < ports.Length
        invariant i <= ports.Length
        invariant ports[i..] == before[i..]
        invariant Followed(Slots(t, ports[..i]), TranslateBody(View(), Slots(t, before[i..]), true, grants[i..])) ==
          goal
      {
        ok := TranslateAt(t, ports, grants, i, before);
        if !ok {
          return;
        }
        i := i + 1;
      }
      ok := true;
      assert ports[..i] == ports[..];
    }

    /** NO SENDERS for a local port: its receive right and what it stood for are forgotten. */
    method EndReceiveRight(p: Port)
      modifies this
      ensures View() == EndReceive(old(View()), p)
    {
      kind := kind - {p};
      if p !in byLocal {
        byLocal := byLocal[p := NULL];
      }
      byRemote := byRemote - {byLocal[p]};
      byLocal := byLocal - {p};
      assert byLocal == EndReceive(old(View()), p).byLocal;
    }
  }

  function Renamed(n: Node, ports: seq<Port>): seq<Port> {
    seq(|ports|, i requires 0 <= i < |ports| => TransmitName(n, ports[i]))
  }

  function RenamedSlots(n: Node, body: seq<Slot>): seq<Slot> {
    seq(|body|, i requires 0 <= i < |body| => Slot(body[i].name, TransmitName(n, body[i].port)))
  }

  lemma SlotsRenamed(n: Node, t: TypeName, ports: seq<Port>)
    ensures RenamedSlots(n, Slots(t, ports)) == Slots(t, Renamed(n, ports))
  {
  }

  /** Translating names afterwards is the same as translating each as it comes. */
  lemma {:induction false} NamesAfter(n: Node, m: Node, body: seq<Slot>)
    requires m.byLocal == n.byLocal && forall i :: 0 <= i < |body| ==> body[i].name == MoveReceive
    ensures var r, all := TransmitBody(m, body, false), TransmitBody(m, body, true);
            if r.Stopped? then all.Stopped?
                else r.node.byLocal == n.byLocal && all == Sent(r.node, RenamedSlots(n, r.body))
    decreases |body|
  {
    if body != [] {
      var out := TransmitReceive(m, body[0].port);
      if out.Ok? {
        NamesAfter(n, out.node, body[1..]);
        var r := TransmitBody(out.node, body[1..], false);
        if r.Sent? {
          var head := Slot(MoveReceive, out.port);
          assert RenamedSlots(n, [head] + r.body) == [Slot(MoveReceive, TransmitName(n, out.port))] + RenamedSlots(n,
            r.body);
        }
      }
    }
  }

  lemma OneMoreReceived(n: Node, t: TypeName, done: seq<Port>, ports: seq<Port>, i: nat, grants: seq<Grant>,
      out: Translated)
    requires i < |ports| == |grants| && out == Translate(n, t, ports[i], grants[i].alloc, grants[i].once)
    ensures var all := Followed(Slots(t, done), TranslateBody(n, Slots(t, ports[i..]), true, grants[i..]));
            if out.Halt? then all.Stopped?
            else all == Followed(Slots(t, done + [out.port]),
              TranslateBody(out.node, Slots(t, ports[i + 1..]), true, grants[i + 1..]))
  {
    var rest := Slots(t, ports[i..]);
    assert rest[0] == Slot(t, ports[i]) && rest[1..] == Slots(t, ports[i + 1..]);
    assert grants[i..][0] == grants[i] && grants[i..][1..] == grants[i + 1..];
    if out.Ok? {
      assert Slots(t, done + [out.port]) == Slots(t, done) + [Slot(t, out.port)];
    }
  }

  ghost predicate Relays(r: Relayed, ok: bool, n: Node, body: seq<Slot>) {
    ok == r.Sent? && (ok ==> r == Sent(n, body))
  }

  lemma Begun(t: TypeName, ports: seq<Port>, n: Node, names: bool)
    ensures Followed(Slots(t, []), TransmitBody(n, Slots(t, ports[0..]), names)) ==
      TransmitBody(n, Slots(t, ports), names)
  {
    assert ports[0..] == ports;
  }

  /** One more port of the item is done. */
  lemma OneMore(n: Node, t: TypeName, done: seq<Port>, ports: seq<Port>, i: nat, names: bool, out: Translated)
    requires i < |ports| && out == Transmit(n, t, ports[i], names)
    ensures var all := Followed(Slots(t, done), TransmitBody(n, Slots(t, ports[i..]), names));
            if out.Halt? then all.Stopped?
            else all == Followed(Slots(t, done + [out.port]), TransmitBody(out.node, Slots(t, ports[i + 1..]), names))
  {
    var rest := Slots(t, ports[i..]);
    assert rest[0] == Slot(t, ports[i]) && rest[1..] == Slots(t, ports[i + 1..]);
    if out.Ok? {
      assert Slots(t, done + [out.port]) == Slots(t, done) + [Slot(t, out.port)];
    }
  }
}
