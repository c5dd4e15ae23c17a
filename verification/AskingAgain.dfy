/**
Kernels that take a flush for the answer to an unlock request that waits, and ask for the page again
(libpager/NOTES:1013-1021): such a kernel waits twice, can be sent the page twice over, and then see stale data.
*/
module AskingAgain {
  import opened PageSpec
  import opened PagerRun
  import opened Coherence
  import opened Incoherence

  /** A kernel that was flushed asks again while the only request of its own that is outstanding is an unlock
      request on WAITLIST. */
  ghost predicate MayAskAgain(s: Sys, k: Client) {
    && k != MACH_PORT_DEAD && At(s, k) == NewKernel
    && Num(s.run.page.entry.wait, Of(k)) == 1 && Waiter(k, true) in s.run.page.entry.wait
  }

  /** The rules of Coherence, with that exception. */
  ghost predicate MayMove(s: Sys, m: Move) {
    Allowed(s, m) || (m.Ask? && MayAskAgain(s, m.k))
  }

  function AskedAgain(s: Sys, k: Client, write: bool): Sys {
    Put(s, k, At(s, k).(outbox := At(s, k).outbox + [WantPage(write)]))
  }

  ghost function Go(s: Sys, m: Move): Sys
    requires MayMove(s, m)
  {
    if Allowed(s, m) then Do(s, m) else AskedAgain(s, m.k, m.write)
  }

  ghost predicate Moves(s: Sys, ms: seq<Move>, r: Sys)
    decreases |ms|
  {
    if ms == [] then r == s else MayMove(s, ms[0]) && Moves(Go(s, ms[0]), ms[1..], r)
  }

  lemma {:induction false} MoreMoves(s: Sys, ms: seq<Move>, t: Sys, m: Move, r: Sys) returns (more: seq<Move>)
    requires Moves(s, ms, t) && MayMove(t, m) && r == Go(t, m)
    ensures more == ms + [m] && Moves(s, more, r)
    decreases |ms|
  {
    more := ms + [m];
    if ms == [] {
      assert more[1..] == [];
    } else {
      assert more[0] == ms[0] && more[1..] == ms[1..] + [m];
      var rest := MoreMoves(Go(s, ms[0]), ms[1..], t, m, r);
    }
  }

  /** Readers have the page, and the clients of `ws` wait. */
  function Read(access: set<Client>, ws: seq<Waiter>): Entry {
    Entry(access, ws, false, false, false, KERN_SUCCESS)
  }

  function ReadOnly(v: Content): Kernel {
    Kernel(Some(Copy(v, false, false)), [], [])
  }

  // ----- moves of kernels

  lemma AsksToRead(s: Sys, e: Entry, ks: Kernels, v: Content, k: Client) returns (r: Sys)
    requires Shows(s, e, Idle, ks, v, v) && k != MACH_PORT_DEAD && KernelIn(ks, k) == NewKernel
    requires forall i :: 0 <= i < |e.wait| ==> e.wait[i].client != k
    ensures Allowed(s, Ask(k, false)) && r == Do(s, Ask(k, false)) && r.run == s.run
    ensures Shows(r, e, Idle, ks[k := Kernel(None, [], [WantPage(false)])], v, v)
  {
    NobodyElse(e.wait, k, |e.wait|);
    assert At(s, k) == KernelIn(ks, k) && [] + [WantPage(false)] == [WantPage(false)];
    PutShows(s, e, Idle, ks, v, v, k, Kernel(None, [], [WantPage(false)]));
    r := Do(s, Ask(k, false));
  }

  lemma GetsToRead(s: Sys, e: Entry, ks: Kernels, latest: Content, k: Client, v: Content, d: bool, rest: seq<Msg>)
    returns (r: Sys)
    requires Shows(s, e, Idle, ks, latest, v) && k in ks && ks[k] == Kernel(None, [Supply(v, d, true)] + rest, [])
    ensures Allowed(s, Receive(k, false)) && r == Do(s, Receive(k, false)) && r.run == s.run
    ensures Shows(r, e, Idle, ks[k := Kernel(Some(Copy(v, false, false)), rest, [])], latest, v)
  {
    assert ([Supply(v, d, true)] + rest)[1..] == rest;
    assert At(s, k) == KernelIn(ks, k);
    PutShows(s, e, Idle, ks, latest, v, k, Kernel(Some(Copy(v, false, false)), rest, []));
    r := Do(s, Receive(k, false));
  }

  lemma AsksToWrite(s: Sys, e: Entry, ks: Kernels, v: Content, k: Client) returns (r: Sys)
    requires Shows(s, e, Idle, ks, v, v) && k != MACH_PORT_DEAD && k in ks && ks[k] == ReadOnly(v) && e.wait == []
    ensures Allowed(s, AskWrite(k)) && r == Do(s, AskWrite(k)) && r.run == s.run
    ensures Shows(r, e, Idle, ks[k := ReadOnly(v).(outbox := [WantWrite])], v, v)
  {
    assert At(s, k) == KernelIn(ks, k) && [] + [WantWrite] == [WantWrite];
    PutShows(s, e, Idle, ks, v, v, k, ReadOnly(v).(outbox := [WantWrite]));
    r := Do(s, AskWrite(k));
  }

  lemma IsFlushedClean(s: Sys, e: Entry, ks: Kernels, v: Content, k: Client) returns (r: Sys)
    requires Shows(s, e, Idle, ks, v, v) && k in ks && ks[k] == ReadOnly(v).(inbox := [Flush])
    ensures Allowed(s, Receive(k, false)) && r == Do(s, Receive(k, false)) && r.run == s.run
    ensures Shows(r, e, Idle, ks[k := Kernel(None, [], [LockDone])], v, v)
  {
    assert At(s, k) == KernelIn(ks, k);
    assert ks[k].inbox[1..] == [] && [] + [] + [LockDone] == [LockDone];
    PutShows(s, e, Idle, ks, v, v, k, Kernel(None, [], [LockDone]));
    r := Do(s, Receive(k, false));
  }

  lemma AsksAgain(s: Sys, e: Entry, ks: Kernels, v: Content) returns (r: Sys)
    requires Shows(s, e, Idle, ks, v, v) && e.wait == [Waiter(1, true)] && KernelIn(ks, 1) == NewKernel
    ensures MayMove(s, Ask(1, false)) && r == Go(s, Ask(1, false)) && r.run == s.run
    ensures Shows(r, e, Idle, ks[1 := Kernel(None, [], [WantPage(false)])], v, v)
  {
    assert At(s, 1) == KernelIn(ks, 1) && [] + [WantPage(false)] == [WantPage(false)];
    assert Num(e.wait, Of(1)) == NumTo(e.wait, Of(1), 0) + 1;
    PutShows(s, e, Idle, ks, v, v, 1, Kernel(None, [], [WantPage(false)]));
    r := Go(s, Ask(1, false));
  }

  lemma GivesUp(s: Sys, e: Entry, ks: Kernels, v: Content, rest: seq<Msg>) returns (r: Sys)
    requires Shows(s, e, Idle, ks, v, v) && 1 in ks && ks[1] == Kernel(Some(Copy(v, false, false)), rest, [])
    ensures Allowed(s, GiveUp(1, false)) && r == Do(s, GiveUp(1, false)) && r.run == s.run
    ensures Shows(r, e, Idle, ks[1 := Kernel(None, rest, [GiveBack(v, false, false)])], v, v)
  {
    assert At(s, 1) == KernelIn(ks, 1) && [] + [GiveBack(v, false, false)] == [GiveBack(v, false, false)];
    PutShows(s, e, Idle, ks, v, v, 1, Kernel(None, rest, [GiveBack(v, false, false)]));
    r := Do(s, GiveUp(1, false));
  }

  // ----- moves of the pager

  /** The pager handles a call, and sends the messages that make `ks` into `ks'`. */
  lemma Handles(s: Sys, e: Entry, ks: Kernels, v: Content, k: Client, call: Call, q: Kernel, ks': Kernels)
    returns (r: Sys)
    requires Shows(s, e, Idle, ks, v, v) && k != MACH_PORT_DEAD
    requires k in ks && ks[k] == q.(outbox := [call]) && q.outbox == []
    requires var t := Step(s.run, EventOf(k, call)); t.dropping.None? && t.page.nextError == []
    requires forall j :: KernelIn(ks', j) == KernelIn(ks[k := q], j).(
                           inbox := KernelIn(ks[k := q], j).inbox + Box(Step(s.run, EventOf(k, call)).page, j))
    ensures Allowed(s, Handle(k)) && r == Do(s, Handle(k))
    ensures var t := Step(s.run, EventOf(k, call));
            Shows(r, t.page.entry, t.pc, ks', v, v) && r.run.page.locks == t.page.locks
  {
    assert At(s, k) == KernelIn(ks, k) && ks[k].outbox[1..] == [];
    PutShows(s, e, Idle, ks, v, v, k, q);
    DeliverShows(Put(s, k, q), e, Idle, ks[k := q], v, v, EventOf(k, call), ks');
    r := Do(s, Handle(k));
  }

  /** The same when nothing is sent. */
  lemma HandlesQuietly(s: Sys, e: Entry, ks: Kernels, v: Content, k: Client, call: Call, q: Kernel) returns (r: Sys)
    requires Shows(s, e, Idle, ks, v, v) && k != MACH_PORT_DEAD
    requires k in ks && ks[k] == q.(outbox := [call]) && q.outbox == []
    requires var t := Step(s.run, EventOf(k, call)); t.dropping.None? && t.page.nextError == [] && t.page.box == map[]
    ensures Allowed(s, Handle(k)) && r == Do(s, Handle(k))
    ensures var t := Step(s.run, EventOf(k, call));
            Shows(r, t.page.entry, t.pc, ks[k := q], v, v) && r.run.page.locks == t.page.locks
  {
    var t := Step(s.run, EventOf(k, call));
    forall j ensures KernelIn(ks[k := q], j) ==
                     KernelIn(ks[k := q], j).(inbox := KernelIn(ks[k := q], j).inbox + Box(t.page, j)) {
      assert KernelIn(ks[k := q], j).inbox + [] == KernelIn(ks[k := q], j).inbox;
    }
    r := Handles(s, e, ks, v, k, call, q, ks[k := q]);
  }

  /** A page-in ends, and sends the messages that make `ks` into `ks'`. */
  lemma PagesIn(s: Sys, e: Entry, ks: Kernels, v: Content, writeLock: bool, ks': Kernels) returns (r: Sys)
    requires Shows(s, e, Paging, ks, v, v) && e.wait != [] && e.error == KERN_SUCCESS
    requires var g := Service(s.run.page, v, !writeLock, true);
             && g.nextError == []
             && forall j :: KernelIn(ks', j) == KernelIn(ks, j).(inbox := KernelIn(ks, j).inbox + Box(g, j))
    ensures Allowed(s, Backing(ReadDone(KERN_SUCCESS, v, writeLock)))
    ensures r == Do(s, Backing(ReadDone(KERN_SUCCESS, v, writeLock)))
    ensures var g := Service(s.run.page, v, !writeLock, true);
            Shows(r, g.entry, Idle, ks', v, v) && r.run.page.locks == g.locks
  {
    var ev := ReadDone(KERN_SUCCESS, v, writeLock);
    assert s.run.page.(entry := e.(error := KERN_SUCCESS)) == s.run.page;
    DeliverShows(s, e, Paging, ks, v, v, ev, ks');
    r := Do(s, Backing(ev));
  }

  lemma ReaderServed(pg: Page, cs: set<Client>, v: Content, k: Client, ks: Kernels)
    requires pg.entry == Read(cs, [Waiter(k, false)]) && pg.box == map[] && KernelIn(ks, k) == NewKernel
    ensures var g := Service(pg, v, true, true);
            && g.entry == Read(cs + {k}, []) && g.nextError == pg.nextError && g.locks == pg.locks
            && forall j :: KernelIn(ks[k := Kernel(None, [Supply(v, true, true)], [])], j) ==
                           KernelIn(ks, j).(inbox := KernelIn(ks, j).inbox + Box(g, j))
  {
    var w, m := Waiter(k, false), Supply(v, true, true);
    assert pg.entry.wait[..1] == [w] && [w][1..] == [] && ReaderRun(pg.entry.wait[1..]) == 0;
    var one := SupplyOne(pg, w, v, true, true);
    assert SupplyAll(pg, [w], v, true, true) == SupplyAll(one, [], v, true, true) == one;
    forall j ensures KernelIn(ks[k := Kernel(None, [m], [])], j) ==
                     KernelIn(ks, j).(inbox := KernelIn(ks, j).inbox + Box(Service(pg, v, true, true), j)) {
      assert [] + [m] == [m] && KernelIn(ks, j).inbox + [] == KernelIn(ks, j).inbox;
    }
  }

  /** Client 1 waits twice, and in a page-in that does not allow writing is supplied twice. */
  lemma ServedTwiceOver(pg: Page, v: Content, ks: Kernels)
    requires pg.entry == Read({}, [Waiter(1, true), Waiter(1, false)]) && pg.box == map[]
    requires KernelIn(ks, 1) == NewKernel
    ensures var g := Service(pg, v, false, true);
            && g.entry == Read({1}, []) && g.nextError == pg.nextError && g.locks == pg.locks
            && forall j :: KernelIn(ks[1 := Kernel(None, [Supply(v, false, true), Supply(v, true, true)], [])], j) ==
                           KernelIn(ks, j).(inbox := KernelIn(ks, j).inbox + Box(g, j))
  {
    var ws := pg.entry.wait;
    var a, b := Supply(v, false, true), Supply(v, true, true);
    assert ws[1..] == [Waiter(1, false)] && ws[1..][1..] == [];
    assert ReaderRun(ws[1..]) == 1 && ws[..2] == ws && ws[2..] == [];
    var one := SupplyOne(pg, ws[0], v, false, true);
    var two := SupplyOne(one, ws[1], v, true, true);
    assert SupplyAll(one, ws[1..], v, true, true) == SupplyAll(two, [], v, true, true) == two;
    assert SupplyAll(pg, ws, v, true, true) == two;
    assert [] + [a] + [b] == [a, b];
    forall j ensures KernelIn(ks[1 := Kernel(None, [a, b], [])], j) ==
                     KernelIn(ks, j).(inbox := KernelIn(ks, j).inbox + Box(Service(pg, v, false, true), j)) {
      assert [] + [a, b] == [a, b] && KernelIn(ks, j).inbox + [] == KernelIn(ks, j).inbox;
    }
  }

  /** The unlock request of client 1 makes both readers flush. */
  lemma UnlockFlushes(pg: Page, ks: Kernels, v: Content)
    requires pg.entry == Read({1, 2}, []) && pg.box == map[] && pg.locks == map[] && pg.nextError == []
    requires KernelIn(ks, 1) == ReadOnly(v) && KernelIn(ks, 2) == ReadOnly(v)
    ensures var out := DataUnlock(pg, 1);
            && out.Go? && out.op == Done && out.page.entry == Read({1, 2}, [Waiter(1, true)])
            && out.page.nextError == []
            && out.page.locks == map[1 := LockRecord(1, true), 2 := LockRecord(1, true)]
            && var q := ReadOnly(v).(inbox := [Flush]);
               forall j :: KernelIn(ks[1 := q][2 := q], j) ==
                           KernelIn(ks, j).(inbox := KernelIn(ks, j).inbox + Box(out.page, j))
  {
    assert |{1, 2}| == 2;
    var asked := Enqueue(pg, 1, true);
    var g := FlushAll(asked, {1, 2});
    assert [] + [Waiter(1, true)] == [Waiter(1, true)];
    assert DataUnlock(pg, 1) == PageSpec.Go(g, Done);
    var q := ReadOnly(v).(inbox := [Flush]);
    forall j ensures KernelIn(ks[1 := q][2 := q], j) ==
                     KernelIn(ks, j).(inbox := KernelIn(ks, j).inbox + Box(g, j)) {
      FlushAt(asked, {1, 2}, j);
      assert [] + [Flush] == [Flush] && KernelIn(ks, j).inbox + [] == KernelIn(ks, j).inbox;
    }
  }

  // ----- what the pager does with the other calls of the run

  lemma ReadRequested(s: Run, cs: set<Client>, k: Client)
    requires s.pc.Idle? && s.page.entry == Read(cs, []) && s.page.nextError == [] && k !in cs
    ensures var t := Step(s, Request(k, false));
            && t.page.entry == Read(cs, [Waiter(k, false)]) && t.pc == Paging && t.dropping.None?
            && t.page.nextError == [] && t.page.box == s.page.box && t.page.locks == s.page.locks
  {
    assert [] + [Waiter(k, false)] == [Waiter(k, false)];
  }

  lemma FirstFlushed(s: Run)
    requires s.pc.Idle? && s.page.entry == Read({1, 2}, [Waiter(1, true)]) && s.page.nextError == []
    requires s.page.locks == map[1 := LockRecord(1, true), 2 := LockRecord(1, true)]
    ensures var t := Step(s, Completed(1));
            && t.page.entry == Read({2}, [Waiter(1, true)]) && t.pc == Idle && t.dropping.None?
            && t.page.nextError == [] && t.page.box == s.page.box && t.page.locks == map[2 := LockRecord(1, true)]
  {
    assert {1, 2} - {1} == {2} && s.page.locks - {1} == map[2 := LockRecord(1, true)];
  }

  lemma WaitsTwice(s: Run)
    requires s.pc.Idle? && s.page.entry == Read({2}, [Waiter(1, true)]) && s.page.nextError == []
    ensures var t := Step(s, Request(1, false));
            && t.page.entry == Read({2}, [Waiter(1, true), Waiter(1, false)]) && t.pc == Idle && t.dropping.None?
            && t.page.nextError == [] && t.page.box == s.page.box && t.page.locks == s.page.locks
  {
    assert [Waiter(1, true)] + [Waiter(1, false)] == [Waiter(1, true), Waiter(1, false)];
  }

  lemma SecondFlushed(s: Run)
    requires s.pc.Idle? && s.page.entry == Read({2}, [Waiter(1, true), Waiter(1, false)]) && s.page.nextError == []
    requires s.page.locks == map[2 := LockRecord(1, true)]
    ensures var t := Step(s, Completed(2));
            && t.page.entry == Read({}, [Waiter(1, true), Waiter(1, false)]) && t.pc == Paging && t.dropping.None?
            && t.page.nextError == [] && t.page.box == s.page.box
  {
    assert {2} - {2} == {};
  }

  lemma ReturnedClean(s: Run, v: Content)
    requires s.pc.Idle? && s.page.entry == Read({1}, [])
    ensures var t := Step(s, Return(1, v, false, false));
            && t.page.entry == EmptyEntry && t.pc == Idle && t.dropping.None?
            && t.page.nextError == [] && t.page.box == s.page.box
  {
    assert {1} - {1} == {};
  }

  // ----- the run

  /** The moves `ms` lead from the start to `s`, in which no version but the first exists. */
  ghost predicate Reaches(v: Content, ms: seq<Move>, s: Sys, e: Entry, pc: Pc, ks: Kernels) {
    Moves(Start(v), ms, s) && Shows(s, e, pc, ks, v, v)
  }

  /** Client `k` asks for the page to read, and the pager pages it in. */
  lemma ReaderAsks(v: Content, before: seq<Move>, s: Sys, cs: set<Client>, ks: Kernels, k: Client)
    returns (ms: seq<Move>, r: Sys)
    requires Reaches(v, before, s, Read(cs, []), Idle, ks) && s.run.page.locks == map[]
    requires k !in cs && k != MACH_PORT_DEAD && KernelIn(ks, k) == NewKernel
    ensures Reaches(v, ms, r, Read(cs, [Waiter(k, false)]), Paging, ks[k := NewKernel]) && r.run.page.locks == map[]
  {
    var ask := Kernel(None, [], [WantPage(false)]);
    var s1 := AsksToRead(s, Read(cs, []), ks, v, k);
    ReadRequested(s1.run, cs, k);
    r := HandlesQuietly(s1, Read(cs, []), ks[k := ask], v, k, WantPage(false), NewKernel);
    assert ks[k := ask][k := NewKernel] == ks[k := NewKernel];
    ms := MoreMoves(Start(v), before, s, Ask(k, false), s1);
    ms := MoreMoves(Start(v), ms, s1, Handle(k), r);
  }

  /** It gets the page. */
  lemma Reader(v: Content, before: seq<Move>, s: Sys, cs: set<Client>, ks: Kernels, k: Client)
    returns (ms: seq<Move>, r: Sys)
    requires Reaches(v, before, s, Read(cs, []), Idle, ks) && s.run.page.locks == map[]
    requires k !in cs && k != MACH_PORT_DEAD && KernelIn(ks, k) == NewKernel
    ensures Reaches(v, ms, r, Read(cs + {k}, []), Idle, ks[k := ReadOnly(v)]) && r.run.page.locks == map[]
  {
    var sent := Kernel(None, [Supply(v, true, true)], []);
    var ms1, s1 := ReaderAsks(v, before, s, cs, ks, k);
    ReaderServed(s1.run.page, cs, v, k, ks[k := NewKernel]);
    assert ks[k := NewKernel][k := sent] == ks[k := sent];
    var s2 := PagesIn(s1, Read(cs, [Waiter(k, false)]), ks[k := NewKernel], v, false, ks[k := sent]);
    assert [Supply(v, true, true)] == [Supply(v, true, true)] + [];
    r := GetsToRead(s2, Read(cs + {k}, []), ks[k := sent], v, k, v, true, []);
    assert ks[k := sent][k := ReadOnly(v)] == ks[k := ReadOnly(v)];
    ms := MoreMoves(Start(v), ms1, s1, Backing(ReadDone(KERN_SUCCESS, v, false)), s2);
    ms := MoreMoves(Start(v), ms, s2, Receive(k, false), r);
  }

  lemma TwoReaders(v: Content) returns (ms: seq<Move>, r: Sys, ks: Kernels)
    ensures Reaches(v, ms, r, Read({1, 2}, []), Idle, ks) && r.run.page.locks == map[]
    ensures 1 in ks && 2 in ks && ks[1] == ReadOnly(v) && ks[2] == ReadOnly(v)
  {
    assert Reaches(v, [], Start(v), Read({}, []), Idle, map[]);
    var ms1, s1 := Reader(v, [], Start(v), {}, map[], 1);
    assert {} + {1} == {1} && {1} + {2} == {1, 2};
    ms, r := Reader(v, ms1, s1, {1}, map[][1 := ReadOnly(v)], 2);
    ks := map[][1 := ReadOnly(v)][2 := ReadOnly(v)];
  }

  /** The pager takes the unlock request of client 1. */
  lemma UnlockHandled(s: Sys, ks: Kernels, v: Content) returns (r: Sys, ks': Kernels)
    requires Shows(s, Read({1, 2}, []), Idle, ks[1 := ReadOnly(v).(outbox := [WantWrite])], v, v)
    requires s.run.page.locks == map[] && 1 in ks && 2 in ks && ks[1] == ReadOnly(v) && ks[2] == ReadOnly(v)
    ensures Allowed(s, Handle(1)) && r == Do(s, Handle(1))
    ensures Shows(r, Read({1, 2}, [Waiter(1, true)]), Idle, ks', v, v)
    ensures r.run.page.locks == map[1 := LockRecord(1, true), 2 := LockRecord(1, true)]
    ensures var q := ReadOnly(v).(inbox := [Flush]); ks' == ks[1 := q][2 := q]
  {
    var asked := ks[1 := ReadOnly(v).(outbox := [WantWrite])];
    var q := ReadOnly(v).(inbox := [Flush]);
    assert asked[1 := ReadOnly(v)] == ks;
    ks' := ks[1 := q][2 := q];
    UnlockFlushes(s.run.page, ks, v);
    r := Handles(s, Read({1, 2}, []), asked, v, 1, WantWrite, ReadOnly(v), ks');
  }

  /** Both clients read, and client 1 asks to write: both are told to flush. */
  lemma UnlockRequested(v: Content) returns (ms: seq<Move>, r: Sys, ks: Kernels)
    ensures Reaches(v, ms, r, Read({1, 2}, [Waiter(1, true)]), Idle, ks)
    ensures r.run.page.locks == map[1 := LockRecord(1, true), 2 := LockRecord(1, true)]
    ensures 1 in ks && 2 in ks
    ensures ks[1] == ReadOnly(v).(inbox := [Flush]) && ks[2] == ReadOnly(v).(inbox := [Flush])
  {
    var before, s, ks0 := TwoReaders(v);
    var s1 := AsksToWrite(s, Read({1, 2}, []), ks0, v, 1);
    r, ks := UnlockHandled(s1, ks0, v);
    ms := MoreMoves(Start(v), before, s, AskWrite(1), s1);
    ms := MoreMoves(Start(v), ms, s1, Handle(1), r);
  }

  /** Client `k` flushes, and the pager takes its completion. */
  lemma Flushed(v: Content, before: seq<Move>, s: Sys, e: Entry, ks: Kernels, k: Client)
    returns (ms: seq<Move>, r: Sys)
    requires Reaches(v, before, s, e, Idle, ks) && k != MACH_PORT_DEAD
    requires k in ks && ks[k] == ReadOnly(v).(inbox := [Flush])
    requires var t := Step(s.run, Completed(k)); t.dropping.None? && t.page.nextError == [] && t.page.box == map[]
    ensures var t := Step(s.run, Completed(k));
            Reaches(v, ms, r, t.page.entry, t.pc, ks[k := NewKernel]) && r.run.page.locks == t.page.locks
  {
    var done := Kernel(None, [], [LockDone]);
    var s1 := IsFlushedClean(s, e, ks, v, k);
    r := HandlesQuietly(s1, e, ks[k := done], v, k, LockDone, NewKernel);
    assert ks[k := done][k := NewKernel] == ks[k := NewKernel];
    ms := MoreMoves(Start(v), before, s, Receive(k, false), s1);
    ms := MoreMoves(Start(v), ms, s1, Handle(k), r);
  }

  /** Client 1 has flushed and asked again, and waits twice. */
  lemma AskedTwice(v: Content) returns (ms: seq<Move>, r: Sys, ks: Kernels)
    ensures Reaches(v, ms, r, Read({2}, [Waiter(1, true), Waiter(1, false)]), Idle, ks)
    ensures r.run.page.locks == map[2 := LockRecord(1, true)]
    ensures 2 in ks && ks[2] == ReadOnly(v).(inbox := [Flush]) && KernelIn(ks, 1) == NewKernel
  {
    var before, s, ks0 := UnlockRequested(v);
    FirstFlushed(s.run);
    var ms1, s1 := Flushed(v, before, s, Read({1, 2}, [Waiter(1, true)]), ks0, 1);
    ks := ks0[1 := NewKernel];
    var e := Read({2}, [Waiter(1, true)]);
    var s2 := AsksAgain(s1, e, ks, v);
    var ask := Kernel(None, [], [WantPage(false)]);
    WaitsTwice(s2.run);
    r := HandlesQuietly(s2, e, ks[1 := ask], v, 1, WantPage(false), NewKernel);
    assert ks[1 := ask][1 := NewKernel] == ks;
    ms := MoreMoves(Start(v), ms1, s1, Ask(1, false), s2);
    ms := MoreMoves(Start(v), ms, s2, Handle(1), r);
  }

  /** Client 1 is sent the page twice over. */
  lemma SentTwice(v: Content) returns (ms: seq<Move>, r: Sys, ks: Kernels)
    ensures Reaches(v, ms, r, Read({1}, []), Idle, ks) && KernelIn(ks, 2) == NewKernel
    ensures 1 in ks && ks[1] == Kernel(None, [Supply(v, false, true), Supply(v, true, true)], [])
  {
    var before, s, ks0 := AskedTwice(v);
    var ws := [Waiter(1, true), Waiter(1, false)];
    SecondFlushed(s.run);
    var ms1, s1 := Flushed(v, before, s, Read({2}, ws), ks0, 2);
    var ks1 := ks0[2 := NewKernel];
    ks := ks1[1 := Kernel(None, [Supply(v, false, true), Supply(v, true, true)], [])];
    ServedTwiceOver(s1.run.page, v, ks1);
    r := PagesIn(s1, Read({}, ws), ks1, v, true, ks);
    ms := MoreMoves(Start(v), ms1, s1, Backing(ReadDone(KERN_SUCCESS, v, true)), r);
  }

  /** It gives up what it got, while the second copy is on its way: for the pager nobody has the page. */
  lemma GivenUp(v: Content) returns (ms: seq<Move>, r: Sys, ks: Kernels)
    ensures Reaches(v, ms, r, EmptyEntry, Idle, ks) && KernelIn(ks, 2) == NewKernel
    ensures 1 in ks && ks[1] == Kernel(None, [Supply(v, true, true)], [])
  {
    var before, s, ks0 := SentTwice(v);
    var rest := [Supply(v, true, true)];
    assert [Supply(v, false, true), Supply(v, true, true)] == [Supply(v, false, true)] + rest;
    var s1 := GetsToRead(s, Read({1}, []), ks0, v, 1, v, false, rest);
    var ks1 := ks0[1 := Kernel(Some(Copy(v, false, false)), rest, [])];
    var s2 := GivesUp(s1, Read({1}, []), ks1, v, rest);
    var ks2 := ks1[1 := Kernel(None, rest, [GiveBack(v, false, false)])];
    ReturnedClean(s2.run, v);
    r := HandlesQuietly(s2, Read({1}, []), ks2, v, 1, GiveBack(v, false, false), Kernel(None, rest, []));
    ks := ks2[1 := Kernel(None, rest, [])];
    ms := MoreMoves(Start(v), before, s, Receive(1, false), s1);
    ms := MoreMoves(Start(v), ms, s1, GiveUp(1, false), s2);
    ms := MoreMoves(Start(v), ms, s2, Handle(1), r);
  }

  /** Client 2 gets the page to write, and writes. */
  lemma OtherWrites(v: Content) returns (ms: seq<Move>, r: Sys, ks: Kernels)
    ensures Moves(Start(v), ms, r) && Shows(r, Held({2}, []), Idle, ks, v + 1, v)
    ensures 1 in ks && ks[1] == Kernel(None, [Supply(v, true, true)], [])
  {
    var before, s, ks0 := GivenUp(v);
    var s1 := Asks(s, EmptyEntry, ks0, v, v, 2);
    var ks1 := ks0[2 := Kernel(None, [], [WantPage(true)])];
    var s2 := FirstRequest(s1, ks1, v, v, 2);
    var ks2 := ks1[2 := NewKernel];
    var s3 := PageRead(s2, ks2, v, v, 2);
    var ks3 := ks2[2 := Kernel(None, [Supply(v, true, false)], [])];
    assert [Supply(v, true, false)] == [Supply(v, true, false)] + [];
    var s4 := GetsPage(s3, Held({2}, []), Idle, ks3, v, v, 2, v, true, []);
    var q := Kernel(Some(Copy(v, true, false)), [], []);
    r := Writes(s4, Held({2}, []), Idle, ks3[2 := q], v, v, 2, q);
    ks := ks3[2 := q][2 := q.(page := Some(Copy(v + 1, true, true)))];
    ms := MoreMoves(Start(v), before, s, Ask(2, true), s1);
    ms := MoreMoves(Start(v), ms, s1, Handle(2), s2);
    ms := MoreMoves(Start(v), ms, s2, Backing(ReadDone(KERN_SUCCESS, v, false)), s3);
    ms := MoreMoves(Start(v), ms, s3, Receive(2, false), s4);
    ms := MoreMoves(Start(v), ms, s4, Modify(2), r);
  }

  /** A kernel that asks again gets a copy that is not the latest version and that the pager does not know of. */
  lemma StaleAfterAskingAgain(v: Content) returns (ms: seq<Move>, r: Sys)
    ensures Moves(Start(v), ms, r) && r.latest == v + 1 && r.run.page.entry.access == {2}
    ensures At(r, 1) == ReadOnly(v)
  {
    var before, s, ks := OtherWrites(v);
    assert [Supply(v, true, true)] == [Supply(v, true, true)] + [];
    r := GetsToRead(s, Held({2}, []), ks, v + 1, 1, v, true, []);
    ms := MoreMoves(Start(v), before, s, Receive(1, false), r);
    assert At(r, 1) == KernelIn(ks[1 := ReadOnly(v)], 1);
  }
}
