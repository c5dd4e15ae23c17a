/**
Port translation in netmsg/netmsg.cc.  A node relays messages between local ports and a network stream,
and gives ports of the peer local names (proxies).  Five maps say what the names mean; a name sent to
the node it came from is marked by flipping its bits.
*/
module Netmsg {
  /** mach_port_t: a 32-bit name. */
  type Port = x: nat | x < 0x1_0000_0000

  const NULL: Port := 0
  const DEAD: Port := 0xFFFF_FFFF
  const CONTROL: Port := 0xFFFF_FFFE
  const LOCAL_FLAG: Port := 0x8000_0000

  /** Bitwise complement. */
  function Flip(p: Port): (q: Port)
    ensures p + q == 0xFFFF_FFFF
  {
    0xFFFF_FFFF - p
  }

  /** The kinds of rights, and names without rights, that a message body may carry. */
  datatype TypeName = MoveReceive | MoveSend | MoveSendOnce | CopySend | MakeSend | MakeSendOnce | PortName

  /** What local_port_type says of a port; `Unset` is the zero that looking up a missing entry inserts. */
  datatype Kind = Unset | Send | Receive

  datatype Node = Node(
    byRemote: map<Port, Port>,       // local_ports_by_remote
    byLocal: map<Port, Port>,        // remote_ports_by_local
    kind: map<Port, Kind>,           // local_port_type
    onceByRemote: map<Port, Port>,   // send_once_ports_by_remote
    onceByLocal: map<Port, Port>     // send_once_ports_by_local
  )

  const NewNode := Node(map[], map[], map[], map[], map[])

  /** A failed assertion, a failed lookup and a call of error() halt the program. */
  datatype Translated = Ok(node: Node, port: Port) | Halt

  function KindOf(n: Node, p: Port): Kind {
    if p in n.kind then n.kind[p] else Unset
  }

  function SetKind(n: Node, p: Port, k: Kind): Node {
    n.(kind := n.kind[p := k])
  }

  // ----- translateForTransmission, one port

  function TransmitSend(n: Node, p: Port): Translated {
    if p == NULL || p == DEAD then Ok(n, p)
    else if p in n.byLocal then
      if KindOf(n, p) != Receive then Halt else Ok(n, Flip(n.byLocal[p]))
    else Ok(SetKind(n, p, Send), p)
  }

  function TransmitReceive(n: Node, p: Port): Translated {
    if p == NULL || p == DEAD then Ok(n, p)
    else if p in n.byLocal then
      if KindOf(n, p) != Send then Halt else Ok(SetKind(n, p, Receive), Flip(n.byLocal[p]))
    else Ok(SetKind(n, p, Receive), p)
  }

  function TransmitName(n: Node, p: Port): Port {
    if p in n.byLocal then Flip(n.byLocal[p]) else p
  }

  /** Ports of the other types pass unchanged.  The case for receive rights runs on into the one for
      names. */
  function Transmit(n: Node, t: TypeName, p: Port, names: bool): Translated {
    match t
    case MoveSend => TransmitSend(n, p)
    case MoveReceive =>
      var out := TransmitReceive(n, p);
      if out.Ok? && names then Ok(out.node, TransmitName(out.node, out.port)) else out
    case PortName => Ok(n, if names then TransmitName(n, p) else p)
    case _ => Ok(n, p)
  }

  // ----- translatePort2; `alloc` is the name that mach_port_allocate returns if it is called, `once`
  // the name that mach_port_extract_right gives the send-once right

  function TranslateFlagged(n: Node, t: TypeName, p: Port): Translated {
    var own := Flip(p);
    match t
    case MoveSend => Ok(SetKind(n, own, KindOf(n, own)), own)
    case MoveReceive => if KindOf(n, own) != Receive then Halt else Ok(SetKind(n, own, Send), own)
    case PortName => Ok(n, own)
    case _ => Halt
  }

  function AddProxy(n: Node, remote: Port, alloc: Port, k: Kind): Node {
    n.(byRemote := n.byRemote[remote := alloc], byLocal := n.byLocal[alloc := remote], kind := n.kind[alloc := k])
  }

  function Translate(n: Node, t: TypeName, p: Port, alloc: Port, once: Port): Translated {
    if p == NULL || p == DEAD then Ok(n, p)
    else if p >= LOCAL_FLAG then TranslateFlagged(n, t, p)
    else
      match t
      case MoveReceive =>
        if p in n.byRemote then
          var local := n.byRemote[p];
          if KindOf(n, local) == Send then Halt else Ok(SetKind(n, local, Send), local)
        else Ok(AddProxy(n, p, alloc, Send), alloc)
      case PortName => Ok(n, if p in n.byRemote then n.byRemote[p] else NULL)
      case MoveSendOnce => TranslateOnce(n, p, alloc, once)
      case MakeSendOnce => TranslateOnce(n, p, alloc, once)
      case _ =>
        if p in n.byRemote then
          if KindOf(n, n.byRemote[p]) != Receive then Halt else Ok(n, n.byRemote[p])
        else Ok(AddProxy(n, p, alloc, Receive), alloc)
  }

  function TranslateOnce(n: Node, p: Port, alloc: Port, once: Port): Translated {
    if p in n.onceByRemote then Halt
    else Ok(n.(onceByRemote := n.onceByRemote[p := alloc], onceByLocal := n.onceByLocal[alloc := p]), once)
  }

  // ----- message bodies and the two handlers

  /** A port in a message body. */
  datatype Slot = Slot(name: TypeName, port: Port)

  datatype Relayed = Sent(node: Node, body: seq<Slot>) | Stopped

  function TransmitBody(n: Node, body: seq<Slot>, names: bool): (r: Relayed)
    ensures r.Sent? ==> |r.body| == |body|
    decreases |body|
  {
    if body == [] then Sent(n, [])
    else
      match Transmit(n, body[0].name, body[0].port, names)
      case Halt => Stopped
      case Ok(m, p) =>
        match TransmitBody(m, body[1..], names)
        case Stopped => Stopped
        case Sent(m', rest) => Sent(m', [Slot(body[0].name, p)] + rest)
  }

  /** The names the kernel hands out while one port is translated. */
  datatype Grant = Grant(alloc: Port, once: Port)

  function TranslateBody(n: Node, body: seq<Slot>, names: bool, grants: seq<Grant>): (r: Relayed)
    requires |grants| == |body|
    ensures r.Sent? ==> |r.body| == |body|
    decreases |body|
  {
    if body == [] then Sent(n, [])
    else
      match TranslateSlot(n, body[0], names, grants[0])
      case Halt => Stopped
      case Ok(m, p) =>
        match TranslateBody(m, body[1..], names, grants[1..])
        case Stopped => Stopped
        case Sent(m', rest) => Sent(m', [Slot(body[0].name, p)] + rest)
  }

  /** Names are left alone unless they are to be translated. */
  function TranslateSlot(n: Node, slot: Slot, names: bool, g: Grant): Translated {
    if slot.name.PortName? && !names then Ok(n, slot.port)
    else Translate(n, slot.name, slot.port, g.alloc, g.once)
  }

  /** A message id, as far as the handlers look at it. */
  datatype Id = DeadName | NoSenders | OtherId

  /** Forget local port `p`. */
  function Unmap(n: Node, p: Port): Node {
    if p in n.byLocal then n.(byRemote := n.byRemote - {n.byLocal[p]}, byLocal := n.byLocal - {p}) else n
  }

  function DropKind(n: Node, p: Port): Node {
    n.(kind := n.kind - {p})
  }

  /** The ports netmsg keeps for itself. */
  datatype Own = Own(control: Port, notification: Port, first: Port)

  datatype Handled =
    | Relay(node: Node, local: Port, translate: bool, reply: Port, body: seq<Slot>)   // the message is passed on
    | Discard(node: Node)
    | Dead

  /** The destination of a message received from IPC, as the peer will see it. */
  function HeaderForTransmission(n: Node, own: Own, local: Port, reply: Port): Handled {
    if local == own.control || local == own.notification then Relay(n, CONTROL, false, reply, [])
    else if local in n.byLocal then
      if KindOf(n, local) != Receive then Dead else Relay(n, n.byLocal[local], false, reply, [])
    else if local in n.onceByLocal then
      var remote := n.onceByLocal[local];
      Relay(n.(onceByLocal := n.onceByLocal - {local}, onceByRemote := n.onceByRemote - {remote}), remote, false,
        reply, [])
    else if local !in n.kind then Discard(n)
    else Relay(n, local, n.kind[local] == Receive, reply, [])
  }

  /** What a NO SENDERS notification removes; looking up a port without a proxy inserts a zero first. */
  function EndReceive(n: Node, local: Port): Node {
    var remote := if local in n.byLocal then n.byLocal[local] else NULL;
    DropKind(n.(byRemote := n.byRemote - {remote}, byLocal := n.byLocal - {local}), local)
  }

  /** ipcBufferHandler.  A dead-name notification for us has the dead name as its first item. */
  function HandleIpc(n: Node, own: Own, local: Port, reply: Port, id: Id, body: seq<Slot>): Handled {
    var died := local == own.notification && local != own.control && id == DeadName;
    if local == own.notification && local != own.control && id == NoSenders then Dead
    else if died && (body == [] || !body[0].name.PortName?) then Dead
    else
      var name := if died then body[0].port else NULL;
      if died && name in n.kind && n.kind[name] != Send then Dead
      else
        var noted := if died then DropKind(n, name) else n;
        match HeaderForTransmission(noted, own, local, reply)
        case Dead => Dead
        case Discard(m) => Discard(m)
        case Relay(m, to, translate, _, _) =>
          if id == NoSenders && KindOf(m, local) != Receive then Dead
          else
            var ended := if id == NoSenders then EndReceive(m, local) else m;
            match TransmitBody(ended, body, name != NULL)
            case Stopped => Dead
            case Sent(k, out) => Relay(if name != NULL then Unmap(k, name) else k, to, translate, reply, out)
  }

  /** translateHeader, for a destination flagged for translation or not; the reply port goes the way of
      a port in the body, and the absence of one is a NULL.  A message that is not passed on is `Discard`ed. */
  function TranslateHeader(n: Node, own: Own, local: Port, translate: bool, id: Id, reply: Slot, g: Grant,
      body: seq<Slot>): Handled {
    if translate && local != CONTROL && local !in n.byRemote then Discard(n)
    else if translate && local != CONTROL && KindOf(n, n.byRemote[local]) != Send then Dead
    else
      var to := if local == CONTROL then own.first else if translate then n.byRemote[local] else local;
      if id == NoSenders then
        if to !in n.kind then Discard(n)
        else if n.kind[to] != Send then Dead
        else Discard(Unmap(DropKind(n, to), to))
      else if id == DeadName && to == own.first then
        if body == [] || !body[0].name.PortName? then Dead
        else if body[0].port !in n.kind then Discard(n)
        else if n.kind[body[0].port] != Receive then Dead
        else Discard(Unmap(DropKind(n, body[0].port), body[0].port))
      else
        if !reply.name.MoveSend? && !reply.name.MoveSendOnce? then Dead
        else
          match Translate(n, reply.name, reply.port, g.alloc, g.once)
          case Halt => Dead
          case Ok(m, p) => Relay(m, to, false, p, body)
  }

  /** tcpBufferHandler. */
  function HandleNet(n: Node, own: Own, local: Port, translate: bool, id: Id, reply: Slot, g: Grant,
                     body: seq<Slot>, grants: seq<Grant>): Handled
    requires |grants| == |body|
  {
    match TranslateBody(n, body, local == CONTROL && id == DeadName, grants)
    case Stopped => Dead
    case Sent(m, out) => TranslateHeader(m, own, local, translate, id, reply, g, out)
  }
}
