/**
Typed Mach messages and their network form (machMessage.h, and transmitOOLdata, receiveOOLdata and
tcpHandler in netmsg/netmsg.cc).  A message is a 24-byte header and a row of items, each a descriptor
followed by its data or, for out-of-line data, by a pointer.  On the stream the out-of-line data of all
items follow the message.
*/
module Wire {
  import opened Bytes

  type Word = x: int | 0 <= x < 0x1_0000_0000

  const HEADER: nat := 24      // sizeof(mach_msg_header_t)
  const MAX_SIZE: nat := 4096

  // ----- words in memory, little-endian

  function WordAt(s: seq<byte>, i: nat): Word
    requires i + 4 <= |s|
  {
    (s[i] as int) + 0x100 * (s[i + 1] as int) + 0x1_0000 * (s[i + 2] as int) + 0x100_0000 * (s[i + 3] as int)
  }

  function WordBytes(w: Word): (s: seq<byte>)
    ensures |s| == 4
  {
    [w % 0x100, w / 0x100 % 0x100, w / 0x1_0000 % 0x100, w / 0x100_0000]
  }

  lemma WordBytesRead(w: Word)
    ensures WordAt(WordBytes(w), 0) == w
  {
    var a, b := w / 0x100, w / 0x1_0000;
    assert w == w % 0x100 + 0x100 * a;
    assert a == a % 0x100 + 0x100 * (a / 0x100);
    assert a / 0x100 == b && b / 0x100 == w / 0x100_0000;
    assert b == b % 0x100 + 0x100 * (b / 0x100);
  }

  // ----- items; each function looks at the item that a row starts with

  /** There is room for the descriptor (mach_msg_type_t, or mach_msg_type_long_t in long form). */
  predicate HasDescriptor(t: seq<byte>) {
    |t| >= 4 && (LongForm(t) ==> |t| >= 12)
  }

  predicate LongForm(t: seq<byte>)
    requires |t| >= 4
  {
    t[3] / 0x20 % 2 == 1
  }

  predicate Inline(t: seq<byte>)
    requires |t| >= 4
  {
    t[3] / 0x10 % 2 == 1
  }

  function HeaderSize(t: seq<byte>): nat
    requires |t| >= 4
  {
    if LongForm(t) then 12 else 4
  }

  function Number(t: seq<byte>): nat
    requires HasDescriptor(t)
  {
    if LongForm(t) then WordAt(t, 8) else (t[2] as int) + 0x100 * (t[3] as int % 0x10)
  }

  function ElementBits(t: seq<byte>): nat
    requires HasDescriptor(t)
  {
    if LongForm(t) then (t[6] as int) + 0x100 * (t[7] as int) else t[1]
  }

  /** Bits to bytes, rounded up to a long word, in 32-bit arithmetic. */
  function SizeOf(bits: nat): (n: nat)
    ensures n % 4 == 0
  {
    var length := (bits + 7) % 0x1_0000_0000 / 8;
    (length + 3) / 4 * 4
  }

  function TotalBits(t: seq<byte>): nat
    requires HasDescriptor(t)
  {
    Number(t) * ElementBits(t)
  }

  function DataSize(t: seq<byte>): (n: nat)
    requires HasDescriptor(t)
    ensures n % 4 == 0
  {
    SizeOf(TotalBits(t))
  }

  function ItemSize(t: seq<byte>): (n: nat)
    requires HasDescriptor(t)
    ensures n >= 4
  {
    HeaderSize(t) + if Inline(t) then DataSize(t) else 4
  }

  /** The row is made of whole items. */
  predicate WholeItems(t: seq<byte>)
    decreases |t|
  {
    t == [] || (HasDescriptor(t) && ItemSize(t) <= |t| && WholeItems(t[ItemSize(t)..]))
  }

  /** The first item has out-of-line data. */
  predicate OutOfLine(t: seq<byte>)
    requires HasDescriptor(t)
  {
    !Inline(t) && DataSize(t) > 0
  }

  function Pointer(t: seq<byte>): Word
    requires HasDescriptor(t) && OutOfLine(t) && ItemSize(t) <= |t|
  {
    WordAt(t, HeaderSize(t))
  }

  function Rest(t: seq<byte>): seq<byte>
    requires HasDescriptor(t) && ItemSize(t) <= |t|
  {
    t[ItemSize(t)..]
  }

  function NumOutOfLine(t: seq<byte>): nat
    requires WholeItems(t)
    decreases |t|
  {
    if t == [] then 0 else (if OutOfLine(t) then 1 else 0) + NumOutOfLine(Rest(t))
  }

  // ----- memory

  type Memory = map<Word, seq<byte>>

  /** Every out-of-line pointer of the row points to as many bytes as its item says. */
  predicate Backed(t: seq<byte>, mem: Memory)
    requires WholeItems(t)
    decreases |t|
  {
    t == [] ||
    ((OutOfLine(t) ==> Pointer(t) in mem && |mem[Pointer(t)]| == DataSize(t)) && Backed(Rest(t), mem))
  }

  /** The out-of-line data of the row, item by item. */
  function Regions(t: seq<byte>, mem: Memory): seq<seq<byte>>
    requires WholeItems(t) && Backed(t, mem)
    decreases |t|
  {
    if t == [] then []
    else (if OutOfLine(t) then [mem[Pointer(t)]] else []) + Regions(Rest(t), mem)
  }

  /** The row with its out-of-line pointers blanked: what there is to a message apart from addresses. */
  function Blanked(t: seq<byte>): (r: seq<byte>)
    requires WholeItems(t)
    decreases |t|
  {
    if t == [] then []
    else (if OutOfLine(t) then t[..HeaderSize(t)] + WordBytes(0) else t[..ItemSize(t)]) + Blanked(Rest(t))
  }

  // ----- the network form

  datatype Message = Message(header: seq<byte>, items: seq<byte>, mem: Memory)

  /** A message that netmsg can relay. */
  predicate WellFormed(m: Message) {
    && |m.header| == HEADER && WordAt(m.header, 4) == HEADER + |m.items| <= MAX_SIZE
    && WholeItems(m.items) && Backed(m.items, m.mem)
  }

  /** transmitOOLdata. */
  function OutOfLineData(t: seq<byte>, mem: Memory): seq<byte>
    requires WholeItems(t) && Backed(t, mem)
    decreases |t|
  {
    if t == [] then []
    else (if OutOfLine(t) then mem[Pointer(t)] else []) + OutOfLineData(Rest(t), mem)
  }

  function Sent(m: Message): seq<byte>
    requires WellFormed(m)
  {
    m.header + m.items + OutOfLineData(m.items, m.mem)
  }

  function SentAll(ms: seq<Message>): seq<byte>
    requires forall i :: 0 <= i < |ms| ==> WellFormed(ms[i])
    decreases |ms|
  {
    if ms == [] then [] else Sent(ms[0]) + SentAll(ms[1..])
  }

  /** `Short`: the stream ended too early. */
  datatype Fetched = Fetched(items: seq<byte>, mem: Memory, rest: seq<byte>) | Short

  /** receiveOOLdata; vm_allocate returns the addresses `at` in turn. */
  function Fetch(t: seq<byte>, stream: seq<byte>, at: seq<Word>): Fetched
    requires WholeItems(t) && |at| == NumOutOfLine(t)
    decreases |t|
  {
    if t == [] then Fetched([], map[], stream)
    else if !OutOfLine(t) then
      var f := Fetch(Rest(t), stream, at);
      if f.Short? then f else f.(items := t[..ItemSize(t)] + f.items)
    else if |stream| < DataSize(t) then Short
    else
      var f := Fetch(Rest(t), stream[DataSize(t)..], at[1..]);
      if f.Short? then f
      else Fetched(t[..HeaderSize(t)] + WordBytes(at[0]) + f.items, f.mem[at[0] := stream[..DataSize(t)]], f.rest)
  }

  datatype Received = Received(message: Message, rest: seq<byte>) | EndOfStream | Refused

  /** The size that the header of the next message gives, if the header can be read and passes the
      assertion on the size. */
  predicate Readable(stream: seq<byte>) {
    |stream| >= HEADER && HEADER <= WordAt(stream, 4) <= MAX_SIZE && WordAt(stream, 4) <= |stream|
  }

  /** One turn of tcpHandler's loop; `at` are the addresses for its out-of-line data. */
  function Receive(stream: seq<byte>, at: seq<Word>): Received {
    if |stream| >= HEADER && WordAt(stream, 4) > MAX_SIZE then Refused
    else if !Readable(stream) then EndOfStream
    else
      var size := WordAt(stream, 4);
      var items := stream[HEADER..size];
      if !WholeItems(items) || |at| != NumOutOfLine(items) then Refused
      else
        var f := Fetch(items, stream[size..], at);
        if f.Short? then EndOfStream else Received(Message(stream[..HEADER], f.items, f.mem), f.rest)
  }

  /** The messages read from a stream until it ends, and what is left of it. */
  function ReceiveAll(stream: seq<byte>, at: seq<seq<Word>>): (r: (seq<Message>, seq<byte>))
    decreases |at|
  {
    if at == [] then ([], stream)
    else
      var r := Receive(stream, at[0]);
      if !r.Received? then ([], stream)
      else var (ms, left) := ReceiveAll(r.rest, at[1..]); ([r.message] + ms, left)
  }
}
