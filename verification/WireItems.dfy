/**
Messages as rows of typed items, each of so many elements of so many bits: what their descriptors say is what
netmsg reads in them, and so every message of such items arrives with all its data.
*/
module WireItems {
  import opened Bytes
  import opened Wire
  import opened WireProof

  // ----- descriptors

  datatype Fields = Fields(name: nat, bits: nat, number: nat)

  datatype Flags = Flags(inline: bool, dealloc: bool, unused: bool)

  /** mach_msg_type_t, and mach_msg_type_long_t, in which the fields of the former have no meaning. */
  datatype Descriptor = Short(fields: Fields, flags: Flags) | Long(fields: Fields, flags: Flags, ignored: Fields)

  predicate FitsShort(f: Fields) {
    f.name < 0x100 && f.bits < 0x100 && f.number < 0x1000
  }

  predicate Encodable(d: Descriptor) {
    match d
    case Short(f, _) => FitsShort(f)
    case Long(f, _, ignored) =>
      f.name < 0x1_0000 && f.bits < 0x1_0000 && f.number < 0x1_0000_0000 && FitsShort(ignored)
  }

  function Bit(b: bool): nat {
    if b then 1 else 0
  }

  /** The upper half of the fourth byte. */
  function FlagBits(g: Flags, long: bool): (r: nat)
    ensures r < 0x10
  {
    Bit(g.inline) + 2 * Bit(long) + 4 * Bit(g.dealloc) + 8 * Bit(g.unused)
  }

  function FirstWord(f: Fields, g: Flags, long: bool): (r: seq<byte>)
    requires FitsShort(f)
    ensures |r| == 4
  {
    [f.name, f.bits, f.number % 0x100, f.number / 0x100 + 0x10 * FlagBits(g, long)]
  }

  function HalfBytes(x: nat): (r: seq<byte>)
    requires x < 0x1_0000
    ensures |r| == 2
  {
    [x % 0x100, x / 0x100]
  }

  function Encoded(d: Descriptor): (r: seq<byte>)
    requires Encodable(d)
    ensures |r| == if d.Long? then 12 else 4
  {
    match d
    case Short(f, g) => FirstWord(f, g, false)
    case Long(f, g, ignored) =>
      FirstWord(ignored, g, true) + HalfBytes(f.name) + HalfBytes(f.bits) + WordBytes(f.number)
  }

  lemma FirstWordReads(f: Fields, g: Flags, long: bool)
    requires FitsShort(f)
    ensures var t := FirstWord(f, g, long);
            && LongForm(t) == long && Inline(t) == g.inline
            && t[0] == f.name && t[1] == f.bits && (t[2] as int) + 0x100 * (t[3] as int % 0x10) == f.number
  {
    var top, flags := f.number / 0x100, FlagBits(g, long);
    assert f.number == f.number % 0x100 + 0x100 * top && top < 0x10;
    Halves(top, flags);
  }

  lemma Halves(low: nat, high: nat)
    requires low < 0x10 && high < 0x10
    ensures var b := low + 0x10 * high; b % 0x10 == low && b / 0x10 == high && b / 0x20 == high / 2
  {
  }

  /** What is encoded is what the iterator of a message reads, whatever follows. */
  lemma ReadsBack(d: Descriptor, more: seq<byte>)
    requires Encodable(d)
    ensures var t := Encoded(d) + more;
            && HasDescriptor(t) && LongForm(t) == d.Long? && HeaderSize(t) == |Encoded(d)|
            && Inline(t) == d.flags.inline && Number(t) == d.fields.number && ElementBits(t) == d.fields.bits
            && TotalBits(t) == Bits(d.fields)
  {
    var t := Encoded(d) + more;
    match d {
      case Short(f, g) => FirstWordReads(f, g, false);
      case Long(f, g, ignored) =>
        FirstWordReads(ignored, g, true);
        WordBytesRead(f.number);
        assert t[8] == WordBytes(f.number)[0] && t[9] == WordBytes(f.number)[1];
        assert t[10] == WordBytes(f.number)[2] && t[11] == WordBytes(f.number)[3];
        assert t[6] == HalfBytes(f.bits)[0] && t[7] == HalfBytes(f.bits)[1];
    }
  }

  /** And there is no other descriptor. */
  lemma EveryDescriptor(t: seq<byte>) returns (d: Descriptor)
    requires HasDescriptor(t)
    ensures Encodable(d) && Encoded(d) == t[..HeaderSize(t)]
  {
    var f, g := FirstFields(t);
    if LongForm(t) {
      var name, bits, number := t[4] as int + 0x100 * t[5] as int, t[6] as int + 0x100 * t[7] as int, WordAt(t, 8);
      d := Long(Fields(name, bits, number), g, f);
      HalfRead(t[4], t[5]);
      HalfRead(t[6], t[7]);
      WordRead(t, 8);
      assert t[..12] == t[..4] + [t[4], t[5]] + [t[6], t[7]] + t[8..12];
    } else {
      d := Descriptor.Short(f, g);
    }
  }

  lemma FirstFields(t: seq<byte>) returns (f: Fields, g: Flags)
    requires |t| >= 4
    ensures FitsShort(f) && FirstWord(f, g, LongForm(t)) == t[..4]
  {
    var top: nat := t[3];
    var high := top / 0x10;
    g := Flags(Inline(t), high / 4 % 2 == 1, high / 8 == 1);
    Halves(top % 0x10, high);
    f := Fields(t[0], t[1], t[2] as int + 0x100 * (top % 0x10));
    assert f.number / 0x100 == top % 0x10 && f.number % 0x100 == t[2];
    assert high == FlagBits(g, LongForm(t));
  }

  lemma HalfRead(a: byte, b: byte)
    ensures a + 0x100 * b < 0x1_0000 && HalfBytes(a + 0x100 * b) == [a, b]
  {
  }

  lemma Digits(a: byte, b: byte, c: byte, d: byte)
    ensures var w := a + 0x100 * (b + 0x100 * (c + 0x100 * d));
            && w < 0x1_0000_0000 && w % 0x100 == a && w / 0x100 % 0x100 == b
            && w / 0x1_0000 % 0x100 == c && w / 0x100_0000 == d
  {
    var x := b + 0x100 * (c + 0x100 * d);
    var y: int := c + 0x100 * d;
    assert x / 0x100 == y && x % 0x100 == b && y / 0x100 == d && y % 0x100 == c;
    var w := a + 0x100 * x;
    assert w / 0x100 == x && w % 0x100 == a;
    assert w / 0x1_0000 == x / 0x100 && w / 0x100_0000 == y / 0x100;
  }

  lemma WordRead(t: seq<byte>, i: nat)
    requires i + 4 <= |t|
    ensures WordBytes(WordAt(t, i)) == t[i..i + 4]
  {
    Digits(t[i], t[i + 1], t[i + 2], t[i + 3]);
  }

  // ----- sizes

  /** `n` bytes are the least number of long words that hold `bits` bits. */
  predicate JustHolds(n: nat, bits: nat) {
    n % 4 == 0 && bits <= 8 * n < bits + 32
  }

  function Bits(f: Fields): nat {
    f.number * f.bits
  }

  lemma RoundedUp(x: nat)
    ensures var n := (x / 8 + 3) / 4 * 4; x < 8 * n + 8 && 8 * n <= x + 24
    ensures x >= 7 ==> JustHolds((x / 8 + 3) / 4 * 4, x - 7)
  {
  }

  lemma Wraps(x: nat)
    requires x >= 0x1_0000_0000
    ensures x % 0x1_0000_0000 <= x - 0x1_0000_0000
  {
  }

  lemma RoundedOrWrapped(bits: nat)
    ensures JustHolds(SizeOf(bits), bits) <==> bits + 7 < 0x1_0000_0000
  {
    RoundedUp((bits + 7) % 0x1_0000_0000);
    if bits + 7 >= 0x1_0000_0000 {
      Wraps(bits + 7);
    }
  }

  /** data_size is right if and only if its arithmetic does not overflow. */
  lemma SizeExactly(t: seq<byte>)
    requires HasDescriptor(t)
    ensures JustHolds(DataSize(t), TotalBits(t)) <==> TotalBits(t) + 7 < 0x1_0000_0000
  {
    RoundedOrWrapped(TotalBits(t));
  }

  lemma SizeIsUnique(m: nat, n: nat, bits: nat)
    requires JustHolds(m, bits) && JustHolds(n, bits)
    ensures m == n
  {
  }

  // ----- items

  /** An item: `data` are in the message, or out of line at the address `at`. */
  datatype Item = Item(desc: Descriptor, data: seq<byte>, at: Word)

  /** The data are what the descriptor says, and not too big for 32-bit arithmetic. */
  predicate Typed(it: Item) {
    && Encodable(it.desc) && Bits(it.desc.fields) + 7 < 0x1_0000_0000
    && JustHolds(|it.data|, Bits(it.desc.fields))
  }

  predicate AllTyped(items: seq<Item>) {
    forall i :: 0 <= i < |items| ==> Typed(items[i])
  }

  /** The item has data out of line. */
  predicate Apart(it: Item) {
    !it.desc.flags.inline && it.data != []
  }

  function Laid(it: Item): (r: seq<byte>)
    requires Typed(it)
    ensures |r| >= 4
  {
    Encoded(it.desc) + if it.desc.flags.inline then it.data else WordBytes(it.at)
  }

  function Layout(items: seq<Item>): seq<byte>
    requires AllTyped(items)
    decreases |items|
  {
    if items == [] then [] else Laid(items[0]) + Layout(items[1..])
  }

  /** All data out of line, item by item. */
  function ApartData(items: seq<Item>): seq<byte>
    decreases |items|
  {
    if items == [] then [] else (if Apart(items[0]) then items[0].data else []) + ApartData(items[1..])
  }

  function NumApart(items: seq<Item>): nat
    decreases |items|
  {
    if items == [] then 0 else (if Apart(items[0]) then 1 else 0) + NumApart(items[1..])
  }

  /** The data out of line are in memory. */
  predicate InMemory(items: seq<Item>, mem: Memory) {
    forall i :: 0 <= i < |items| && Apart(items[i]) ==> items[i].at in mem && mem[items[i].at] == items[i].data
  }

  /** The same items with their data out of line at the addresses `at`. */
  function Moved(items: seq<Item>, at: seq<Word>): (r: seq<Item>)
    requires |at| == NumApart(items)
    ensures |r| == |items|
    ensures forall i :: 0 <= i < |r| ==> r[i].desc == items[i].desc && r[i].data == items[i].data
    decreases |items|
  {
    if items == [] then []
    else if Apart(items[0]) then [items[0].(at := at[0])] + Moved(items[1..], at[1..])
    else [items[0]] + Moved(items[1..], at)
  }

  function Placed(items: seq<Item>, at: seq<Word>): (mem: Memory)
    requires |at| == NumApart(items)
    decreases |items|
  {
    if items == [] then map[]
    else if Apart(items[0]) then Placed(items[1..], at[1..])[at[0] := items[0].data]
    else Placed(items[1..], at)
  }

  /** What netmsg reads in the first item of a row. */
  lemma LaidReads(it: Item, more: seq<byte>)
    requires Typed(it)
    ensures var t := Laid(it) + more;
            && HasDescriptor(t) && HeaderSize(t) == |Encoded(it.desc)| && t[..HeaderSize(t)] == Encoded(it.desc)
            && ItemSize(t) == |Laid(it)| && Rest(t) == more && t[..ItemSize(t)] == Laid(it)
            && DataSize(t) == |it.data| && OutOfLine(t) == Apart(it) && (Apart(it) ==> Pointer(t) == it.at)
  {
    var t, d := Laid(it) + more, Encoded(it.desc);
    var body := if it.desc.flags.inline then it.data else WordBytes(it.at);
    assert t == d + (body + more);
    ReadsBack(it.desc, body + more);
    SizeExactly(t);
    SizeIsUnique(DataSize(t), |it.data|, Bits(it.desc.fields));
    if Apart(it) {
      WordBytesRead(it.at);
      assert forall i :: 0 <= i < 4 ==> t[|d| + i] == WordBytes(it.at)[i];
    }
  }

  lemma {:induction false} LayoutWhole(items: seq<Item>)
    requires AllTyped(items)
    ensures WholeItems(Layout(items)) && NumOutOfLine(Layout(items)) == NumApart(items)
    decreases |items|
  {
    if items != [] {
      LayoutWhole(items[1..]);
      LaidReads(items[0], Layout(items[1..]));
    }
  }

  /** transmitOOLdata sends exactly the data out of line. */
  lemma {:induction false} LayoutSent(items: seq<Item>, mem: Memory)
    requires AllTyped(items) && InMemory(items, mem)
    ensures WholeItems(Layout(items)) && Backed(Layout(items), mem)
    ensures OutOfLineData(Layout(items), mem) == ApartData(items)
    decreases |items|
  {
    LayoutWhole(items);
    if items != [] {
      LayoutSent(items[1..], mem);
      LaidReads(items[0], Layout(items[1..]));
    }
  }

  /** receiveOOLdata gives back the items, at new addresses. */
  lemma {:induction false} LayoutFetched(items: seq<Item>, after: seq<byte>, at: seq<Word>)
    requires AllTyped(items) && |at| == NumApart(items)
    ensures Gives(items, after, at)
    decreases |items|
  {
    LayoutWhole(items);
    if items == [] {
      assert ApartData(items) + after == after;
    } else if Apart(items[0]) {
      LayoutFetched(items[1..], after, at[1..]);
      ApartFetched(items, after, at);
    } else {
      LayoutFetched(items[1..], after, at);
      InlineFetched(items, after, at);
    }
  }

  ghost predicate Gives(items: seq<Item>, after: seq<byte>, at: seq<Word>)
    requires AllTyped(items) && |at| == NumApart(items)
  {
    && WholeItems(Layout(items)) && NumOutOfLine(Layout(items)) == NumApart(items)
    && Fetch(Layout(items), ApartData(items) + after, at) ==
       Fetched(Layout(Moved(items, at)), Placed(items, at), after)
  }

  lemma ApartFetched(items: seq<Item>, after: seq<byte>, at: seq<Word>)
    requires AllTyped(items) && |at| == NumApart(items) && items != [] && Apart(items[0])
    requires Gives(items[1..], after, at[1..])
    ensures Gives(items, after, at)
  {
    var it, more := items[0], items[1..];
    LayoutWhole(items);
    LaidReads(it, Layout(more));
    MovedFirst(items, at);
    Joins(it.data, ApartData(more), after);
    FetchApart(Layout(items), ApartData(items) + after, at, it.data, ApartData(more) + after);
  }

  lemma InlineFetched(items: seq<Item>, after: seq<byte>, at: seq<Word>)
    requires AllTyped(items) && |at| == NumApart(items) && items != [] && !Apart(items[0])
    requires Gives(items[1..], after, at)
    ensures Gives(items, after, at)
  {
    LayoutWhole(items);
    LaidReads(items[0], Layout(items[1..]));
    MovedFirst(items, at);
    assert ApartData(items) == ApartData(items[1..]);
  }

  lemma Joins(a: seq<byte>, b: seq<byte>, c: seq<byte>)
    ensures a + b + c == a + (b + c)
  {
  }

  lemma FetchApart(t: seq<byte>, stream: seq<byte>, at: seq<Word>, data: seq<byte>, more: seq<byte>)
    requires WholeItems(t) && t != [] && OutOfLine(t) && |at| == NumOutOfLine(t)
    requires DataSize(t) == |data| && stream == data + more
    ensures WholeItems(Rest(t)) && |at[1..]| == NumOutOfLine(Rest(t))
    ensures var f := Fetch(Rest(t), more, at[1..]);
            f.Fetched? ==>
              Fetch(t, stream, at) ==
              Fetched(t[..HeaderSize(t)] + WordBytes(at[0]) + f.items, f.mem[at[0] := data], f.rest)
  {
    assert stream[..|data|] == data && stream[|data|..] == more;
  }

  lemma MovedFirst(items: seq<Item>, at: seq<Word>)
    requires AllTyped(items) && |at| == NumApart(items) && items != []
    ensures Layout(Moved(items, at)) ==
            if Apart(items[0]) then Encoded(items[0].desc) + WordBytes(at[0]) + Layout(Moved(items[1..], at[1..]))
            else Laid(items[0]) + Layout(Moved(items[1..], at))
  {
    var it := items[0];
    if Apart(it) {
      var moved := [it.(at := at[0])] + Moved(items[1..], at[1..]);
      assert moved[1..] == Moved(items[1..], at[1..]);
      assert Laid(it.(at := at[0])) == Encoded(it.desc) + WordBytes(at[0]);
    } else {
      var moved := [it] + Moved(items[1..], at);
      assert moved[1..] == Moved(items[1..], at);
    }
  }

  lemma {:induction false} PlacedIn(items: seq<Item>, at: seq<Word>)
    requires |at| == NumApart(items) && Distinct(at)
    ensures InMemory(Moved(items, at), Placed(items, at)) && forall a :: a in Placed(items, at) ==> a in at
    ensures forall i :: 0 <= i < |items| && Apart(items[i]) ==> Moved(items, at)[i].at in at
    decreases |items|
  {
    if items != [] {
      var rest := if Apart(items[0]) then at[1..] else at;
      PlacedIn(items[1..], rest);
      if Apart(items[0]) {
        assert at[0] !in rest;
      }
    }
  }

  // ----- whole messages

  datatype Letter = Letter(header: seq<byte>, items: seq<Item>)

  predicate Proper(l: Letter) {
    && AllTyped(l.items)
    && |l.header| == HEADER && WordAt(l.header, 4) == HEADER + |Layout(l.items)| <= MAX_SIZE
  }

  /** The bytes of the message and all its data. */
  function Carried(l: Letter): seq<byte>
    requires Proper(l)
  {
    l.header + Layout(l.items) + ApartData(l.items)
  }

  function CarriedAll(ls: seq<Letter>): seq<byte>
    requires forall i :: 0 <= i < |ls| ==> Proper(ls[i])
    decreases |ls|
  {
    if ls == [] then [] else Carried(ls[0]) + CarriedAll(ls[1..])
  }

  /** A message of typed items is well-formed, and its bytes and all its data are transmitted. */
  lemma LetterSent(l: Letter, mem: Memory)
    requires Proper(l) && InMemory(l.items, mem)
    ensures var m := Message(l.header, Layout(l.items), mem); WellFormed(m) && Sent(m) == Carried(l)
  {
    LayoutSent(l.items, mem);
  }

  ghost predicate Provides(l: Letter, at: seq<Word>) {
    Proper(l) && |at| == NumApart(l.items) && Distinct(at)
  }

  /** The message `m` is the letter `l`, with the same items and the same data, at the addresses `at`. */
  ghost predicate Arrived(l: Letter, at: seq<Word>, m: Message) {
    && Provides(l, at) && m == Message(l.header, Layout(Moved(l.items, at)), Placed(l.items, at))
    && InMemory(Moved(l.items, at), m.mem)
  }

  /** The parts of a stream that starts with a letter. */
  lemma Parts(l: Letter, after: seq<byte>)
    requires Proper(l)
    ensures var stream, size := Carried(l) + after, HEADER + |Layout(l.items)|;
            && size <= |stream| && WordAt(stream, 4) == size && stream[..HEADER] == l.header
            && stream[HEADER..size] == Layout(l.items) && stream[size..] == ApartData(l.items) + after
  {
    FourParts(l.header, Layout(l.items), ApartData(l.items), after);
  }

  lemma FourParts(h: seq<byte>, a: seq<byte>, b: seq<byte>, c: seq<byte>)
    requires |h| == HEADER
    ensures var stream := h + a + b + c;
            && stream[..HEADER] == h && stream[HEADER..HEADER + |a|] == a && stream[HEADER + |a|..] == b + c
            && WordAt(stream, 4) == WordAt(h, 4)
  {
    var stream := h + a + b + c;
    assert stream[4] == h[4] && stream[5] == h[5] && stream[6] == h[6] && stream[7] == h[7];
  }

  lemma LetterArrives(l: Letter, after: seq<byte>, at: seq<Word>)
    requires Provides(l, at)
    ensures var r := Receive(Carried(l) + after, at); r.Received? && r.rest == after && Arrived(l, at, r.message)
  {
    Parts(l, after);
    LayoutFetched(l.items, after, at);
    PlacedIn(l.items, at);
  }

  ghost predicate AllArrived(ls: seq<Letter>, at: seq<seq<Word>>, rs: seq<Message>) {
    |rs| == |ls| == |at| && forall i :: 0 <= i < |ls| ==> Arrived(ls[i], at[i], rs[i])
  }

  lemma OneMoreArrived(ls: seq<Letter>, at: seq<seq<Word>>, r: Message, rs: seq<Message>)
    requires ls != [] && at != [] && Arrived(ls[0], at[0], r) && AllArrived(ls[1..], at[1..], rs)
    ensures AllArrived(ls, at, [r] + rs)
  {
    forall i | 0 <= i < |ls| ensures Arrived(ls[i], at[i], ([r] + rs)[i]) {
      if i > 0 {
        assert ls[i] == ls[1..][i - 1] && at[i] == at[1..][i - 1];
      }
    }
  }

  /** For every list of messages of typed items, each arrives with all its items and all their data. */
  lemma {:induction false} LettersArrive(ls: seq<Letter>, at: seq<seq<Word>>)
    requires |at| == |ls| && forall i :: 0 <= i < |ls| ==> Proper(ls[i]) && Provides(ls[i], at[i])
    ensures var (rs, left) := ReceiveAll(CarriedAll(ls), at);
            left == [] && AllArrived(ls, at, rs)
    decreases |ls|
  {
    if ls != [] {
      LetterArrives(ls[0], CarriedAll(ls[1..]), at[0]);
      LettersArrive(ls[1..], at[1..]);
      OneMoreArrived(ls, at, Receive(CarriedAll(ls), at[0]).message, ReceiveAll(CarriedAll(ls[1..]), at[1..]).0);
    }
  }

  // ----- a stream that is cut short

  lemma {:induction false} FetchShort(items: seq<Item>, stream: seq<byte>, at: seq<Word>)
    requires AllTyped(items) && |at| == NumApart(items) && |stream| < |ApartData(items)|
    ensures WholeItems(Layout(items)) && NumOutOfLine(Layout(items)) == NumApart(items)
    ensures Fetch(Layout(items), stream, at).Short?
    decreases |items|
  {
    LayoutWhole(items);
    if items != [] {
      var it, more := items[0], items[1..];
      LaidReads(it, Layout(more));
      if !Apart(it) {
        FetchShort(more, stream, at);
      } else if |stream| >= |it.data| {
        FetchShort(more, stream[|it.data|..], at[1..]);
      }
    }
  }

  lemma CutParts(h: seq<byte>, a: seq<byte>, b: seq<byte>, n: nat)
    requires |h| == HEADER && n < |h| + |a| + |b|
    ensures var stream, size := (h + a + b)[..n], HEADER + |a|;
            && |stream| == n && (n >= HEADER ==> WordAt(stream, 4) == WordAt(h, 4))
            && (n >= size ==> stream[HEADER..size] == a && |stream[size..]| < |b|)
  {
    var stream := (h + a + b)[..n];
    if n >= HEADER {
      assert stream[4] == h[4] && stream[5] == h[5] && stream[6] == h[6] && stream[7] == h[7];
    }
    if n >= HEADER + |a| {
      assert stream[HEADER..HEADER + |a|] == a;
    }
  }

  /** A message of which the stream holds only a part is not delivered. */
  lemma CutShort(l: Letter, n: nat, at: seq<Word>)
    requires Proper(l) && |at| == NumApart(l.items) && n < |Carried(l)|
    ensures Receive(Carried(l)[..n], at) == EndOfStream
  {
    CutParts(l.header, Layout(l.items), ApartData(l.items), n);
    var size := HEADER + |Layout(l.items)|;
    if n >= size {
      FetchShort(l.items, Carried(l)[..n][size..], at);
    }
  }

  /** A stream that ends inside a message gives the messages before it, and no other. */
  lemma {:induction false} OnlyWholeLetters(ls: seq<Letter>, at: seq<seq<Word>>, l: Letter, n: nat, last: seq<Word>)
    requires |at| == |ls| && forall i :: 0 <= i < |ls| ==> Proper(ls[i]) && Provides(ls[i], at[i])
    requires Proper(l) && |last| == NumApart(l.items) && n < |Carried(l)|
    ensures var (rs, left) := ReceiveAll(CarriedAll(ls) + Carried(l)[..n], at + [last]);
            left == Carried(l)[..n] && AllArrived(ls, at, rs)
    decreases |ls|
  {
    var part := Carried(l)[..n];
    if ls == [] {
      CutShort(l, n, last);
      assert CarriedAll(ls) + part == part && (at + [last])[0] == last;
    } else {
      var more := CarriedAll(ls[1..]) + part;
      Joins(Carried(ls[0]), CarriedAll(ls[1..]), part);
      LetterArrives(ls[0], more, at[0]);
      assert (at + [last])[1..] == at[1..] + [last] && (at + [last])[0] == at[0];
      OnlyWholeLetters(ls[1..], at[1..], l, n, last);
      OneMoreArrived(ls, at, Receive(Carried(ls[0]) + more, at[0]).message, ReceiveAll(more, at[1..] + [last]).0);
    }
  }
}
