/**
The loops of transmitOOLdata and receiveOOLdata: an iterator moves over the items of a message buffer;
the receiver writes the new pointers into the buffer as it goes.
*/
module WireIo {
  import opened Bytes
  import opened Wire
  import opened WireProof

  /** Writes the out-of-line data of the message in `buf` to the stream. */
  method TransmitOutOfLine(buf: array<byte>, size: nat, mem: Memory) returns (out: seq<byte>)
    requires HEADER <= size <= buf.Length && WholeItems(buf[HEADER..size]) && Backed(buf[HEADER..size], mem)
    ensures out == OutOfLineData(buf[HEADER..size], mem)
  {
    var p, item := HEADER, buf[HEADER..size];
    out := [];
    ghost var goal := OutOfLineData(item, mem);
    while p < size
      invariant HEADER <= p <= size && p + |item| == size
      invariant WholeItems(item) && Backed(item, mem)
      invariant out + OutOfLineData(item, mem) == goal
    {
      SendStep(out, item, mem);
      out := if OutOfLine(item) then out + mem[Pointer(item)] else out;
      p := p + ItemSize(item);
      item := Rest(item);
    }
  }

  lemma Associate(a: seq<byte>, b: seq<byte>, c: seq<byte>)
    ensures a + (b + c) == a + b + c
  {
  }

  lemma SendStep(out: seq<byte>, t: seq<byte>, mem: Memory)
    requires WholeItems(t) && t != [] && Backed(t, mem)
    ensures WholeItems(Rest(t)) && Backed(Rest(t), mem)
    ensures out + OutOfLineData(t, mem) ==
            (if OutOfLine(t) then out + mem[Pointer(t)] else out) + OutOfLineData(Rest(t), mem)
  {
    var more := OutOfLineData(Rest(t), mem);
    if OutOfLine(t) {
      Associate(out, mem[Pointer(t)], more);
    } else {
      assert [] + more == more;
    }
  }

  /** Writes four bytes at `h`. */
  method WriteWord(buf: array<byte>, h: nat, a: Word)
    requires h + 4 <= buf.Length
    modifies buf
    ensures WordWritten(old(buf[..]), buf[..], h, a)
  {
    var b := WordBytes(a);
    buf[h], buf[h + 1], buf[h + 2], buf[h + 3] := b[0], b[1], b[2], b[3];
  }

  /** `after` is `before` with the word `a` at `h`. */
  ghost predicate WordWritten(before: seq<byte>, after: seq<byte>, h: nat, a: Word) {
    && |after| == |before| && h + 4 <= |before|
    && forall i :: 0 <= i < |before| ==> after[i] == if h <= i < h + 4 then WordBytes(a)[i - h] else before[i]
  }

  /** The item that `row`, at `p` in the buffer, starts with gets a pointer behind its descriptor. */
  lemma PointerWritten(before: seq<byte>, after: seq<byte>, size: nat, p: nat, a: Word, row: seq<byte>)
    requires p <= size <= |before| && row == before[p..size] && StartsWhole(row) && OutOfLine(row)
    requires WordWritten(before, after, p + HeaderSize(row), a)
    ensures var next := p + ItemSize(row);
            && next <= size
            && after[..next] == before[..p] + (row[..HeaderSize(row)] + WordBytes(a))
            && after[next..size] == Rest(row) && after[size..] == before[size..]
  {
    var h := p + HeaderSize(row);
    var next := h + 4;
    assert forall i :: p <= i < size ==> row[i - p] == before[i];
    FrontWritten(before, after, p, h, a, row[..HeaderSize(row)]);
    assert after[next..size] == before[next..size] == Rest(row);
  }

  lemma FrontWritten(before: seq<byte>, after: seq<byte>, p: nat, h: nat, a: Word, desc: seq<byte>)
    requires p <= h && WordWritten(before, after, h, a) && |desc| == h - p && desc == before[p..h]
    ensures after[..h + 4] == before[..p] + (desc + WordBytes(a))
  {
    assert forall i :: p <= i < h ==> desc[i - p] == before[i];
  }

  /** Writes a pointer behind the descriptor of the item that `row`, at `p` in the buffer, starts with. */
  method SetPointer(buf: array<byte>, size: nat, p: nat, a: Word, ghost row: seq<byte>) returns (next: nat)
    requires p <= size <= buf.Length && row == buf[p..size] && StartsWhole(row) && OutOfLine(row)
    modifies buf
    ensures p < next <= size
    ensures buf[..next] == old(buf[..p]) + (row[..HeaderSize(row)] + WordBytes(a))
    ensures buf[next..size] == Rest(row) && buf[size..] == old(buf[size..])
  {
    ghost var before := buf[..];
    var item := buf[p..size];
    next := p + HeaderSize(item) + 4;
    WriteWord(buf, p + HeaderSize(item), a);
    PointerWritten(before, buf[..], size, p, a, row);
    ArraySlices(buf, next, size);
  }

  lemma ArraySlices(buf: array<byte>, p: nat, size: nat)
    requires p <= size <= buf.Length
    ensures buf[..p] == buf[..][..p] && buf[p..size] == buf[..][p..size] && buf[size..] == buf[..][size..]
  {
  }

  /** operator++ of the iterator. */
  method PassItem(buf: array<byte>, size: nat, p: nat, ghost row: seq<byte>) returns (next: nat)
    requires p <= size <= buf.Length && row == buf[p..size] && StartsWhole(row)
    ensures p < next <= size
    ensures buf[..next] == buf[..p] + row[..ItemSize(row)] && buf[next..size] == Rest(row)
  {
    next := p + ItemSize(buf[p..size]);
  }

  /** Reads the out-of-line data of the message in `buf` from the stream, into memory at the addresses
      `at`, which it writes into the buffer; `ok` tells that the stream was long enough. */
  method ReceiveOutOfLine(buf: array<byte>, size: nat, stream: seq<byte>, at: seq<Word>)
    returns (ok: bool, mem: Memory, rest: seq<byte>)
    requires HEADER <= size <= buf.Length && WholeItems(buf[HEADER..size])
    requires |at| == NumOutOfLine(buf[HEADER..size]) && Distinct(at)
    modifies buf
    ensures ok == Fetch(old(buf[HEADER..size]), stream, at).Fetched?
    ensures ok ==>
        Joined(old(buf[..HEADER]), map[], Fetch(old(buf[HEADER..size]), stream, at)) == Fetched(buf[..size], mem, rest)
    ensures buf[size..] == old(buf[size..])
  {
    var p, k := HEADER, 0;
    mem, rest := map[], stream;
    ghost var front, row, left := buf[..HEADER], buf[HEADER..size], at;
    ghost var goal := Joined(front, map[], Fetch(row, stream, at));
    while p < size
      invariant HEADER <= p <= size && front == buf[..p] && row == buf[p..size]
      invariant k <= |at| && left == at[k..]
      invariant WholeItems(row) && |left| == NumOutOfLine(row)
      invariant forall a :: a in mem ==> a in at[..k]
      invariant Joined(front, mem, Fetch(row, rest, left)) == goal
      invariant buf[size..] == old(buf[size..])
    {
      var item := buf[p..size];
      if !OutOfLine(item) {
        JoinInline(front, mem, row, rest, left);
        p := PassItem(buf, size, p, row);
        front, row := front + row[..ItemSize(row)], Rest(row);
      } else if |rest| < DataSize(item) {
        return false, mem, rest;
      } else {
        NewAddress(at, k);
        JoinOutOfLine(front, mem, row, rest, left);
        p := SetPointer(buf, size, p, at[k], row);
        front, row := front + (row[..HeaderSize(row)] + WordBytes(at[k])), Rest(row);
        mem, rest := mem[at[k] := rest[..DataSize(item)]], rest[DataSize(item)..];
        k := k + 1;
        left := left[1..];
      }
    }
    ok := true;
    JoinEnd(front, mem, rest);
  }

  lemma JoinEnd(done: seq<byte>, mem: Memory, rest: seq<byte>)
    ensures Joined(done, mem, Fetch([], rest, [])) == Fetched(done, mem, rest)
  {
    assert done + [] == done;
    assert map[] + mem == mem;
  }

  /** What has been received, followed by what is still to come. */
  function Joined(done: seq<byte>, mem: Memory, f: Fetched): Fetched {
    if f.Short? then Short else Fetched(done + f.items, f.mem + mem, f.rest)
  }

  lemma NewAddress(at: seq<Word>, k: nat)
    requires k < |at| && Distinct(at)
    ensures at[k] !in at[..k]
  {
  }

  lemma JoinOutOfLine(done: seq<byte>, mem: Memory, t: seq<byte>, stream: seq<byte>, at: seq<Word>)
    requires WholeItems(t) && t != [] && OutOfLine(t) && |at| == NumOutOfLine(t) && DataSize(t) <= |stream| &&
      at[0] !in mem
    ensures WholeItems(Rest(t)) && |at[1..]| == NumOutOfLine(Rest(t))
    ensures Joined(done, mem, Fetch(t, stream, at)) ==
            Joined(done + (t[..HeaderSize(t)] + WordBytes(at[0])), mem[at[0] := stream[..DataSize(t)]],
                   Fetch(Rest(t), stream[DataSize(t)..], at[1..]))
  {
    var f := Fetch(Rest(t), stream[DataSize(t)..], at[1..]);
    if f.Fetched? {
      var d := stream[..DataSize(t)];
      assert f.mem[at[0] := d] + mem == f.mem + mem[at[0] := d];
      assert done + (t[..HeaderSize(t)] + WordBytes(at[0]) + f.items) ==
        done + (t[..HeaderSize(t)] + WordBytes(at[0])) + f.items;
    }
  }

  lemma JoinInline(done: seq<byte>, mem: Memory, t: seq<byte>, stream: seq<byte>, at: seq<Word>)
    requires WholeItems(t) && t != [] && !OutOfLine(t) && |at| == NumOutOfLine(t)
    ensures WholeItems(Rest(t)) && |at| == NumOutOfLine(Rest(t))
    ensures Joined(done, mem, Fetch(t, stream, at)) == Joined(done + t[..ItemSize(t)], mem, Fetch(Rest(t), stream, at))
  {
    var f := Fetch(Rest(t), stream, at);
    if f.Fetched? {
      assert done + (t[..ItemSize(t)] + f.items) == done + t[..ItemSize(t)] + f.items;
    }
  }
}
