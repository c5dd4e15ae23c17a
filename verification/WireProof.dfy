/**
Receiving what was transmitted gives the same messages: both ends walk the same descriptors, and the
pointers that the receiver writes into the message do not disturb the walk.
*/
module WireProof {
  import opened Bytes
  import opened Wire

  /** `t` starts with a whole item. */
  ghost predicate StartsWhole(t: seq<byte>) {
    HasDescriptor(t) && ItemSize(t) <= |t|
  }

  /** Two rows whose first items have the same descriptor, whatever follows it. */
  lemma SameDescriptor(t: seq<byte>, u: seq<byte>)
    requires HasDescriptor(t) && |u| >= HeaderSize(t) && u[..HeaderSize(t)] == t[..HeaderSize(t)]
    ensures HasDescriptor(u) && HeaderSize(u) == HeaderSize(t) && Inline(u) == Inline(t)
    ensures DataSize(u) == DataSize(t) && ItemSize(u) == ItemSize(t) && OutOfLine(u) == OutOfLine(t)
  {
    var h := HeaderSize(t);
    assert forall i :: 0 <= i < h ==> u[i] == u[..h][i] == t[..h][i] == t[i];
    assert Number(u) == Number(t) && ElementBits(u) == ElementBits(t);
  }

  /** The first item of `t` with another pointer, in front of another row. */
  lemma Repointed(t: seq<byte>, a: Word, more: seq<byte>)
    requires StartsWhole(t) && OutOfLine(t)
    ensures var u := t[..HeaderSize(t)] + WordBytes(a) + more;
            && StartsWhole(u) && OutOfLine(u) && HeaderSize(u) == HeaderSize(t) && DataSize(u) == DataSize(t)
            && Pointer(u) == a && Rest(u) == more && u[..HeaderSize(u)] == t[..HeaderSize(t)]
  {
    var h := HeaderSize(t);
    var u := t[..h] + WordBytes(a) + more;
    assert u[..h] == t[..h];
    SameDescriptor(t, u);
    WordBytesRead(a);
    assert forall i :: 0 <= i < 4 ==> u[h + i] == WordBytes(a)[i];
    assert ItemSize(u) == h + 4;
  }

  /** The first item of `t` in front of another row. */
  lemma Kept(t: seq<byte>, more: seq<byte>)
    requires StartsWhole(t) && !OutOfLine(t)
    ensures var u := t[..ItemSize(t)] + more;
            && StartsWhole(u) && !OutOfLine(u) && ItemSize(u) == ItemSize(t) && Rest(u) == more &&
                 u[..ItemSize(u)] == t[..ItemSize(t)]
  {
    var u := t[..ItemSize(t)] + more;
    assert u[..HeaderSize(t)] == t[..HeaderSize(t)];
    SameDescriptor(t, u);
  }

  predicate Distinct(at: seq<Word>) {
    forall i, j :: 0 <= i < j < |at| ==> at[i] != at[j]
  }

  /** What the receiver has is what the sender had, apart from addresses. */
  ghost predicate Same(t: seq<byte>, mem: Memory, u: seq<byte>, mem': Memory) {
    && WholeItems(t) && Backed(t, mem) && WholeItems(u) && Backed(u, mem')
    && |u| == |t| && Blanked(u) == Blanked(t) && Regions(u, mem') == Regions(t, mem)
  }

  /** Other addresses do not matter. */
  lemma {:induction false} MoreMemory(u: seq<byte>, mem: Memory, a: Word, data: seq<byte>)
    requires WholeItems(u) && Backed(u, mem) && a !in mem
    ensures Backed(u, mem[a := data]) && Regions(u, mem[a := data]) == Regions(u, mem)
    decreases |u|
  {
    if u != [] {
      MoreMemory(Rest(u), mem, a, data);
    }
  }

  /** Adding an out-of-line item to what has been received. */
  lemma AddOutOfLine(t: seq<byte>, mem: Memory, a: Word, more: seq<byte>, mem': Memory)
    requires WholeItems(t) && t != [] && Backed(t, mem) && OutOfLine(t)
    requires Same(Rest(t), mem, more, mem') && a !in mem'
    ensures Same(t, mem, t[..HeaderSize(t)] + WordBytes(a) + more, mem'[a := mem[Pointer(t)]])
  {
    var u := t[..HeaderSize(t)] + WordBytes(a) + more;
    var data := mem[Pointer(t)];
    Repointed(t, a, more);
    MoreMemory(more, mem', a, data);
  }

  lemma AddInline(t: seq<byte>, mem: Memory, more: seq<byte>, mem': Memory)
    requires WholeItems(t) && t != [] && Backed(t, mem) && !OutOfLine(t)
    requires Same(Rest(t), mem, more, mem')
    ensures Same(t, mem, t[..ItemSize(t)] + more, mem')
  {
    Kept(t, more);
  }

  /** receiveOOLdata undoes transmitOOLdata. */
  lemma {:induction false} FetchUndoes(t: seq<byte>, mem: Memory, after: seq<byte>, at: seq<Word>)
    requires WholeItems(t) && Backed(t, mem) && |at| == NumOutOfLine(t) && Distinct(at)
    ensures var f := Fetch(t, OutOfLineData(t, mem) + after, at);
            && f.Fetched? && f.rest == after && Same(t, mem, f.items, f.mem)
            && forall a :: a in f.mem ==> a in at
    decreases |t|
  {
    var stream := OutOfLineData(t, mem) + after;
    if t == [] {
      assert stream == after;
    } else if OutOfLine(t) {
      var data, more := mem[Pointer(t)], OutOfLineData(Rest(t), mem);
      assert stream == data + (more + after);
      assert stream[..|data|] == data && stream[|data|..] == more + after;
      FetchUndoes(Rest(t), mem, after, at[1..]);
      var f := Fetch(Rest(t), more + after, at[1..]);
      assert at[0] !in at[1..];
      AddOutOfLine(t, mem, at[0], f.items, f.mem);
    } else {
      assert OutOfLineData(t, mem) == OutOfLineData(Rest(t), mem);
      FetchUndoes(Rest(t), mem, after, at);
      var f := Fetch(Rest(t), stream, at);
      AddInline(t, mem, f.items, f.mem);
    }
  }

  ghost predicate SameMessage(m: Message, r: Message) {
    m.header == r.header && Same(m.items, m.mem, r.items, r.mem)
  }

  /** The addresses suffice for the message and are different from each other. */
  ghost predicate Provided(m: Message, at: seq<Word>) {
    WellFormed(m) && |at| == NumOutOfLine(m.items) && Distinct(at)
  }

  lemma ReceiveUndoes(m: Message, after: seq<byte>, at: seq<Word>)
    requires Provided(m, at)
    ensures var r := Receive(Sent(m) + after, at);
            r.Received? && r.rest == after && SameMessage(m, r.message)
  {
    var data := OutOfLineData(m.items, m.mem);
    var stream := Sent(m) + after;
    var size := HEADER + |m.items|;
    assert stream[..HEADER] == m.header;
    assert forall i :: 0 <= i < HEADER ==> stream[i] == m.header[i];
    assert WordAt(stream, 4) == size;
    assert stream[HEADER..size] == m.items;
    assert stream[size..] == data + after;
    FetchUndoes(m.items, m.mem, after, at);
  }

  /** For every list of well-formed messages, receiving the transmitted stream gives the same messages
      with the same out-of-line data, and reads the stream to its end. */
  lemma {:induction false} RoundTrip(ms: seq<Message>, at: seq<seq<Word>>)
    requires |at| == |ms| && (forall i :: 0 <= i < |ms| ==> WellFormed(ms[i]))
    requires forall i :: 0 <= i < |ms| ==> Provided(ms[i], at[i])
    ensures var (rs, left) := ReceiveAll(SentAll(ms), at);
            && left == [] && |rs| == |ms|
            && forall i :: 0 <= i < |ms| ==> SameMessage(ms[i], rs[i])
    decreases |ms|
  {
    if ms != [] {
      ReceiveUndoes(ms[0], SentAll(ms[1..]), at[0]);
      RoundTrip(ms[1..], at[1..]);
    }
  }
}
