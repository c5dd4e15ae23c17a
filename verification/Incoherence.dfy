/**
Without the hypothesis that no dirty return is served twice over, kernels that keep to all their rules see
stale data: two of them get writable copies, and one does not see what the other writes.
*/
module Incoherence {
  import opened PageSpec
  import opened PagerRun
  import opened Coherence

  // ----- runs by parts

  ghost predicate Leads(s: Sys, ms: seq<Move>, r: Sys)
    decreases |ms|
  {
    if ms == [] then r == s else Permitted(s, ms[0]) && Leads(Do(s, ms[0]), ms[1..], r)
  }

  lemma {:induction false} Then(s: Sys, ms: seq<Move>, t: Sys, m: Move, r: Sys)
    requires Leads(s, ms, t) && Permitted(t, m) && r == Do(t, m)
    ensures Leads(s, ms + [m], r)
    decreases |ms|
  {
    if ms == [] {
      assert (ms + [m])[1..] == [];
    } else {
      assert (ms + [m])[0] == ms[0] && (ms + [m])[1..] == ms[1..] + [m];
      Then(Do(s, ms[0]), ms[1..], t, m, r);
    }
  }

  /** The kernels that do not have the initial state. */
  type Kernels = map<Client, Kernel>

  function KernelIn(ks: Kernels, k: Client): Kernel {
    if k in ks then ks[k] else NewKernel
  }

  /** All that matters of a state of the system. */
  ghost predicate Shows(s: Sys, e: Entry, pc: Pc, ks: Kernels, latest: Content, store: Content) {
    && s.run.page.entry == e && s.run.pc == pc && s.run.dropping.None?
    && s.run.page.nextError == [] && s.run.page.box == map[]
    && s.latest == latest && s.store == store
    && forall k :: At(s, k) == KernelIn(ks, k)
  }

  function Held(access: set<Client>, ws: seq<Waiter>): Entry {
    Entry(access, ws, false, true, false, KERN_SUCCESS)
  }

  lemma DeliveredTo(s: Sys, ev: Event, k: Client)
    requires Enabled(s.run, ev)
    ensures At(Deliver(s, ev), k) == At(s, k).(inbox := At(s, k).inbox + Box(Step(s.run, ev).page, k))
  {
    assert NewKernel.inbox + [] == NewKernel.inbox;
  }

  lemma PutShows(s: Sys, e: Entry, pc: Pc, ks: Kernels, latest: Content, store: Content, k: Client, q: Kernel)
    requires Shows(s, e, pc, ks, latest, store)
    ensures Shows(Put(s, k, q), e, pc, ks[k := q], latest, store) && At(s, k) == KernelIn(ks, k)
  {
    var t := Put(s, k, q);
    forall j ensures At(t, j) == KernelIn(ks[k := q], j) {
      assert At(s, j) == KernelIn(ks, j);
    }
  }

  /** A step of the pager, and what it sends. */
  lemma DeliverShows(s: Sys, e: Entry, pc: Pc, ks: Kernels, latest: Content, store: Content, ev: Event, ks': Kernels)
    requires Shows(s, e, pc, ks, latest, store) && Enabled(s.run, ev)
    requires var t := Step(s.run, ev); t.dropping.None? && t.page.nextError == []
    requires forall j :: KernelIn(ks', j) ==
                         KernelIn(ks, j).(inbox := KernelIn(ks, j).inbox + Box(Step(s.run, ev).page, j))
    ensures var t := Step(s.run, ev); Shows(Deliver(s, ev), t.page.entry, t.pc, ks', latest, store)
  {
    forall j ensures At(Deliver(s, ev), j) == KernelIn(ks', j) {
      DeliveredTo(s, ev, j);
      assert At(s, j) == KernelIn(ks, j);
    }
  }

  lemma NobodyElse(ws: seq<Waiter>, k: Client, n: nat)
    requires n <= |ws| && forall i :: 0 <= i < n ==> ws[i].client != k
    ensures NumTo(ws, Of(k), n) == 0
  {
  }

  // ----- moves of kernels

  lemma Asks(s: Sys, e: Entry, ks: Kernels, latest: Content, store: Content, k: Client) returns (r: Sys)
    requires Shows(s, e, Idle, ks, latest, store) && k != MACH_PORT_DEAD && KernelIn(ks, k) == NewKernel
    requires forall i :: 0 <= i < |e.wait| ==> e.wait[i].client != k
    ensures Permitted(s, Ask(k, true)) && r == Do(s, Ask(k, true))
    ensures Shows(r, e, Idle, ks[k := Kernel(None, [], [WantPage(true)])], latest, store)
  {
    NobodyElse(e.wait, k, |e.wait|);
    assert At(s, k) == KernelIn(ks, k) && [] + [WantPage(true)] == [WantPage(true)];
    PutShows(s, e, Idle, ks, latest, store, k, Kernel(None, [], [WantPage(true)]));
    r := Do(s, Ask(k, true));
  }

  lemma GetsPage(s: Sys, e: Entry, pc: Pc, ks: Kernels, latest: Content, store: Content, k: Client, v: Content,
                 d: bool, rest: seq<Msg>) returns (r: Sys)
    requires Shows(s, e, pc, ks, latest, store) && k in ks && ks[k] == Kernel(None, [Supply(v, d, false)] + rest, [])
    ensures Permitted(s, Receive(k, false)) && r == Do(s, Receive(k, false))
    ensures Shows(r, e, pc, ks[k := Kernel(Some(Copy(v, true, false)), rest, [])], latest, store)
  {
    assert ([Supply(v, d, false)] + rest)[1..] == rest;
    assert At(s, k) == KernelIn(ks, k);
    PutShows(s, e, pc, ks, latest, store, k, Kernel(Some(Copy(v, true, false)), rest, []));
    r := Do(s, Receive(k, false));
  }

  lemma Writes(s: Sys, e: Entry, pc: Pc, ks: Kernels, latest: Content, store: Content, k: Client, q: Kernel)
    returns (r: Sys)
    requires Shows(s, e, pc, ks, latest, store) && k in ks && ks[k] == q && q.page.Some? && q.page.value.writable
    ensures Permitted(s, Modify(k)) && r == Do(s, Modify(k))
    ensures Shows(r, e, pc, ks[k := q.(page := Some(Copy(latest + 1, true, true)))], latest + 1, store)
  {
    assert At(s, k) == KernelIn(ks, k);
    PutShows(s, e, pc, ks, latest, store, k, q.(page := Some(Copy(latest + 1, true, true))));
    r := Do(s, Modify(k));
  }

  lemma IsFlushed(s: Sys, e: Entry, pc: Pc, ks: Kernels, latest: Content, store: Content, k: Client, v: Content)
    returns (r: Sys)
    requires Shows(s, e, pc, ks, latest, store) && k in ks && ks[k] == Kernel(Some(Copy(v, true, true)), [Flush], [])
    ensures Permitted(s, Receive(k, false)) && r == Do(s, Receive(k, false))
    ensures Shows(r, e, pc, ks[k := Kernel(None, [], [GiveBack(v, true, false), LockDone])], latest, store)
  {
    var q := ks[k];
    assert At(s, k) == KernelIn(ks, k);
    assert q.inbox[1..] == [] && [] + [GiveBack(v, true, false)] + [LockDone] == [GiveBack(v, true, false), LockDone];
    PutShows(s, e, pc, ks, latest, store, k, Kernel(None, [], [GiveBack(v, true, false), LockDone]));
    r := Do(s, Receive(k, false));
  }

  // ----- moves of the pager

  /** What a service of a writer sends. */
  lemma ServesWriter(pg: Page, data: Content, dealloc: bool, k: Client)
    requires pg.entry.wait != [] && pg.entry.wait[0].write && pg.box == map[]
    ensures var ws, r := pg.entry.wait, Service(pg, data, true, dealloc);
            && r.entry == pg.entry.(access := pg.entry.access + {ws[0].client}, wait := ws[1..], writeGranted := true)
            && r.nextError == pg.nextError
            && Box(r, k) == (if k == ws[0].client then [Supply(data, dealloc, false)] else []) +
                            (if ws[1..] != [] && k in pg.entry.access + {ws[0].client} then [Flush] else [])
  {
    var w := pg.entry.wait[0];
    assert pg.entry.wait[..1] == [w] && [w][1..] == [];
    var one := SupplyOne(pg, w, data, dealloc, false);
    assert SupplyAll(pg, [w], data, dealloc, false) == SupplyAll(one, [], data, dealloc, false) == one;
    assert [] + [Supply(data, dealloc, false)] == [Supply(data, dealloc, false)];
    var after := one.(entry := one.entry.(wait := pg.entry.wait[1..], writeGranted := true));
    FlushAt(after, after.entry.access, k);
  }

  lemma FirstRequest(s: Sys, ks: Kernels, latest: Content, store: Content, k: Client) returns (r: Sys)
    requires Shows(s, EmptyEntry, Idle, ks, latest, store) && k != MACH_PORT_DEAD
    requires k in ks && ks[k] == Kernel(None, [], [WantPage(true)])
    ensures Permitted(s, Handle(k)) && r == Do(s, Handle(k))
    ensures Shows(r, EmptyEntry.(wait := [Waiter(k, true)]), Paging, ks[k := NewKernel], latest, store)
  {
    r := Do(s, Handle(k));
    PutShows(s, EmptyEntry, Idle, ks, latest, store, k, NewKernel);
    var q := Put(s, k, NewKernel);
    assert ks[k].outbox[1..] == [];
    assert Step(q.run, Request(k, true)).page.box == map[];
    forall j ensures At(r, j) == KernelIn(ks[k := NewKernel], j) {
      DeliveredTo(q, Request(k, true), j);
      assert At(q, j).inbox + [] == At(q, j).inbox;
    }
  }

  lemma PageRead(s: Sys, ks: Kernels, latest: Content, v: Content, k: Client) returns (r: Sys)
    requires Shows(s, EmptyEntry.(wait := [Waiter(k, true)]), Paging, ks, latest, v) && KernelIn(ks, k) == NewKernel
    ensures Permitted(s, Backing(ReadDone(KERN_SUCCESS, v, false)))
    ensures r == Do(s, Backing(ReadDone(KERN_SUCCESS, v, false)))
    ensures Shows(r, Held({k}, []), Idle, ks[k := Kernel(None, [Supply(v, true, false)], [])], latest, v)
  {
    var ev := ReadDone(KERN_SUCCESS, v, false);
    r := Do(s, Backing(ev));
    ServesWriter(s.run.page, v, true, k);
    forall j ensures At(r, j) == KernelIn(ks[k := Kernel(None, [Supply(v, true, false)], [])], j) {
      ServesWriter(s.run.page, v, true, j);
      DeliveredTo(s, ev, j);
      assert At(s, j).inbox + [] == At(s, j).inbox;
    }
  }

  /** A request while client 1 has write access: the first makes it flush. */
  lemma NextRequest(s: Sys, ws: seq<Waiter>, ks: Kernels, latest: Content, store: Content, k: Client, q1: Kernel)
    returns (r: Sys)
    requires Shows(s, Held({1}, ws), Idle, ks, latest, store) && k != MACH_PORT_DEAD && k != 1
    requires 1 in ks && ks[1] == q1 && k in ks && ks[k] == Kernel(None, [], [WantPage(true)])
    ensures Permitted(s, Handle(k)) && r == Do(s, Handle(k))
    ensures Shows(r, Held({1}, ws + [Waiter(k, true)]), Idle,
                  ks[k := NewKernel][1 := q1.(inbox := q1.inbox + if ws == [] then [Flush] else [])], latest, store)
  {
    r := Do(s, Handle(k));
    PutShows(s, Held({1}, ws), Idle, ks, latest, store, k, NewKernel);
    var q := Put(s, k, NewKernel);
    var ks' := ks[k := NewKernel][1 := q1.(inbox := q1.inbox + if ws == [] then [Flush] else [])];
    assert ks[k].outbox[1..] == [];
    forall j ensures At(r, j) == KernelIn(ks', j) {
      DeliveredTo(q, Request(k, true), j);
      FlushAt(Enqueue(s.run.page, k, true), {1}, j);
      assert At(q, j).inbox + [] == At(q, j).inbox;
    }
  }

  /** Client 1 gives the page back: client 2 is served, and flushed because client 3 waits. */
  lemma GivesBack(s: Sys, ks: Kernels, latest: Content, store: Content, v: Content) returns (r: Sys)
    requires Shows(s, Held({1}, [Waiter(2, true), Waiter(3, true)]), Idle, ks, latest, store)
    requires 1 in ks && ks[1] == Kernel(None, [], [GiveBack(v, true, false), LockDone]) && KernelIn(ks, 2) == NewKernel
    ensures Permitted(s, Handle(1)) && r == Do(s, Handle(1))
    ensures Shows(r, Held({2}, [Waiter(3, true)]).(pagingOut := true), Writing(v, false),
                  ks[1 := Kernel(None, [], [LockDone])][2 := Kernel(None, [Supply(v, false, false), Flush], [])],
                  latest, store)
  {
    var e, q1 := Held({1}, [Waiter(2, true), Waiter(3, true)]), Kernel(None, [], [LockDone]);
    assert At(s, 1) == KernelIn(ks, 1) && ks[1].outbox[1..] == [LockDone];
    PutShows(s, e, Idle, ks, latest, store, 1, q1);
    var left := Evict(s.run.page, 1);
    assert left.entry.access == {};
    ReturnServesAll(s.run, v, left);
    SecondServed(left, ks[1 := q1], v);
    DeliverShows(Put(s, 1, q1), e, Idle, ks[1 := q1], latest, store, Return(1, v, true, false),
                 ks[1 := q1][2 := Kernel(None, [Supply(v, false, false), Flush], [])]);
    r := Do(s, Handle(1));
  }

  /** What client 2 is sent, and nobody else. */
  lemma SecondServed(left: Page, ks: Kernels, v: Content)
    requires left.entry == Held({}, [Waiter(2, true), Waiter(3, true)]) && left.box == map[]
    requires KernelIn(ks, 2) == NewKernel
    ensures var r := Service(left, v, true, false);
            && r.entry == Held({2}, [Waiter(3, true)]) && r.nextError == left.nextError
            && forall j :: KernelIn(ks[2 := Kernel(None, [Supply(v, false, false), Flush], [])], j) ==
                           KernelIn(ks, j).(inbox := KernelIn(ks, j).inbox + Box(r, j))
  {
    assert left.entry.wait[1..] == [Waiter(3, true)];
    ServesWriter(left, v, false, 2);
    forall j ensures KernelIn(ks[2 := Kernel(None, [Supply(v, false, false), Flush], [])], j) ==
                     KernelIn(ks, j).(inbox := KernelIn(ks, j).inbox + Box(Service(left, v, true, false), j)) {
      ServesWriter(left, v, false, j);
      assert KernelIn(ks, j).inbox + [] == KernelIn(ks, j).inbox;
      assert [] + ([Supply(v, false, false)] + [Flush]) == [Supply(v, false, false), Flush];
    }
  }

  lemma ReturnServesAll(run: Run, v: Content, left: Page)
    requires run.pc.Idle? && left == Evict(run.page, 1) && left.entry.access == {} && left.entry.wait != []
    ensures var t, r := Step(run, Return(1, v, true, false)), Service(left, v, true, false);
            t == Run(r.(entry := r.entry.(pagingOut := true)), Writing(v, false), None)
  {
  }

  /** The write-back serves client 3 as well. */
  lemma ServedAgain(s: Sys, ks: Kernels, latest: Content, store: Content, v: Content) returns (r: Sys)
    requires Shows(s, Held({2}, [Waiter(3, true)]).(pagingOut := true), Writing(v, false), ks, latest, store)
    requires KernelIn(ks, 3) == NewKernel
    ensures Permitted(s, Backing(WriteDone(KERN_SUCCESS))) && r == Do(s, Backing(WriteDone(KERN_SUCCESS)))
    ensures Shows(r, Held({2, 3}, []), Idle, ks[3 := Kernel(None, [Supply(v, false, false)], [])], latest, v)
  {
    var ev := WriteDone(KERN_SUCCESS);
    r := Do(s, Backing(ev));
    var out := s.run.page.(entry := s.run.page.entry.(invalid := false, pagingOut := false));
    assert out.entry.wait[1..] == [] && {2} + {3} == {2, 3};
    ServesWriter(out, v, false, 3);
    assert Step(s.run, ev) == Run(Service(out, v, true, false), Idle, None);
    forall j ensures At(r, j) == KernelIn(ks[3 := Kernel(None, [Supply(v, false, false)], [])], j) {
      ServesWriter(out, v, false, j);
      DeliveredTo(s, ev, j);
      assert At(s, j) == KernelIn(ks, j) && At(s, j).inbox + [] == At(s, j).inbox;
    }
  }

  // ----- the run

  /** The moves `ms` lead from the start to `s`. */
  ghost predicate Reached(v: Content, ms: seq<Move>, s: Sys) {
    Leads(Start(v), ms, s)
  }

  lemma Next(v: Content, ms: seq<Move>, s: Sys, m: Move, r: Sys) returns (more: seq<Move>)
    requires Reached(v, ms, s) && Permitted(s, m) && r == Do(s, m)
    ensures more == ms + [m] && Reached(v, more, r)
  {
    Then(Start(v), ms, s, m, r);
    more := ms + [m];
  }

  /** Client 1 gets the page to write. */
  lemma FirstGets(v: Content) returns (ms: seq<Move>, r: Sys)
    ensures Reached(v, ms, r)
    ensures Shows(r, Held({1}, []), Idle, map[1 := Kernel(None, [Supply(v, true, false)], [])], v, v)
  {
    var s := Start(v);
    assert Shows(s, EmptyEntry, Idle, map[], v, v);
    var s1 := Asks(s, EmptyEntry, map[], v, v, 1);
    var k1 := Kernel(None, [], [WantPage(true)]);
    assert map[][1 := k1] == map[1 := k1];
    var s2 := FirstRequest(s1, map[1 := k1], v, v, 1);
    assert map[1 := k1][1 := NewKernel] == map[1 := NewKernel];
    r := PageRead(s2, map[1 := NewKernel], v, v, 1);
    var k3 := Kernel(None, [Supply(v, true, false)], []);
    assert map[1 := NewKernel][1 := k3] == map[1 := k3];
    ms := Next(v, [], s, Ask(1, true), s1);
    ms := Next(v, ms, s1, Handle(1), s2);
    ms := Next(v, ms, s2, Backing(ReadDone(KERN_SUCCESS, v, false)), r);
  }

  /** It writes. */
  lemma FirstWrites(v: Content) returns (ms: seq<Move>, r: Sys)
    ensures Reached(v, ms, r)
    ensures Shows(r, Held({1}, []), Idle, map[1 := Kernel(Some(Copy(v + 1, true, true)), [], [])], v + 1, v)
  {
    var before, s := FirstGets(v);
    var k0 := Kernel(None, [Supply(v, true, false)], []);
    assert k0.inbox == [Supply(v, true, false)] + [];
    var s1 := GetsPage(s, Held({1}, []), Idle, map[1 := k0], v, v, 1, v, true, []);
    var k1 := Kernel(Some(Copy(v, true, false)), [], []);
    assert map[1 := k0][1 := k1] == map[1 := k1];
    r := Writes(s1, Held({1}, []), Idle, map[1 := k1], v, v, 1, k1);
    var k2 := Kernel(Some(Copy(v + 1, true, true)), [], []);
    assert map[1 := k1][1 := k2] == map[1 := k2];
    ms := Next(v, before, s, Receive(1, false), s1);
    ms := Next(v, ms, s1, Modify(1), r);
  }

  /** Another client asks to write, and waits. */
  lemma AnotherAsks(v: Content, before: seq<Move>, s: Sys, ws: seq<Waiter>, ks: Kernels, k: Client, q1: Kernel)
    returns (ms: seq<Move>, r: Sys, ks': Kernels)
    requires Reached(v, before, s) && Shows(s, Held({1}, ws), Idle, ks, v + 1, v) && k != 1 && k != MACH_PORT_DEAD
    requires 1 in ks && ks[1] == q1 && k !in ks && forall i :: 0 <= i < |ws| ==> ws[i].client != k
    ensures Reached(v, ms, r) && Shows(r, Held({1}, ws + [Waiter(k, true)]), Idle, ks', v + 1, v)
    ensures ks' == ks[k := NewKernel][1 := q1.(inbox := q1.inbox + if ws == [] then [Flush] else [])]
  {
    var s1 := Asks(s, Held({1}, ws), ks, v + 1, v, k);
    var asked := Kernel(None, [], [WantPage(true)]);
    r := NextRequest(s1, ws, ks[k := asked], v + 1, v, k, q1);
    ks' := ks[k := NewKernel][1 := q1.(inbox := q1.inbox + if ws == [] then [Flush] else [])];
    assert ks[k := asked][k := NewKernel] == ks[k := NewKernel];
    ms := Next(v, before, s, Ask(k, true), s1);
    ms := Next(v, ms, s1, Handle(k), r);
  }

  /** Client 1 has written, is told to flush, and clients 2 and 3 wait to write. */
  lemma TwoWait(v: Content) returns (ms: seq<Move>, r: Sys, ks: Kernels)
    ensures Reached(v, ms, r) && Shows(r, Held({1}, [Waiter(2, true), Waiter(3, true)]), Idle, ks, v + 1, v)
    ensures 1 in ks && ks[1] == Kernel(Some(Copy(v + 1, true, true)), [Flush], [])
    ensures KernelIn(ks, 2) == NewKernel && KernelIn(ks, 3) == NewKernel
  {
    var before, s := FirstWrites(v);
    var q1 := Kernel(Some(Copy(v + 1, true, true)), [], []);
    ms, r, ks := AnotherAsks(v, before, s, [], map[1 := q1], 2, q1);
    assert [] + [Waiter(2, true)] == [Waiter(2, true)] && [] + [Flush] == [Flush];
    var q2 := q1.(inbox := [Flush]);
    ms, r, ks := AnotherAsks(v, ms, r, [Waiter(2, true)], ks, 3, q2);
    assert [Waiter(2, true)] + [Waiter(3, true)] == [Waiter(2, true), Waiter(3, true)] && [Flush] + [] == [Flush];
  }

  /** Both are given the page to write. */
  lemma BothServed(v: Content) returns (ms: seq<Move>, r: Sys, ks: Kernels)
    ensures Reached(v, ms, r) && Shows(r, Held({2, 3}, []), Idle, ks, v + 1, v + 1) && 2 in ks && 3 in ks
    ensures ks[2] == Kernel(None, [Supply(v + 1, false, false), Flush], [])
    ensures ks[3] == Kernel(None, [Supply(v + 1, false, false)], [])
  {
    var before, s, ks0 := TwoWait(v);
    var e := Held({1}, [Waiter(2, true), Waiter(3, true)]);
    var s1 := IsFlushed(s, e, Idle, ks0, v + 1, v, 1, v + 1);
    var ks1 := ks0[1 := Kernel(None, [], [GiveBack(v + 1, true, false), LockDone])];
    var s2 := GivesBack(s1, ks1, v + 1, v, v + 1);
    var ks2 := ks1[1 := Kernel(None, [], [LockDone])][2 := Kernel(None, [Supply(v + 1, false, false), Flush], [])];
    r := ServedAgain(s2, ks2, v + 1, v, v + 1);
    ks := ks2[3 := Kernel(None, [Supply(v + 1, false, false)], [])];
    ms := Next(v, before, s, Receive(1, false), s1);
    ms := Next(v, ms, s1, Handle(1), s2);
    ms := Next(v, ms, s2, Backing(WriteDone(KERN_SUCCESS)), r);
  }

  /** Kernels that keep to all their rules end up with two writable copies, one of which is not the latest
      version. */
  lemma StaleCopyIsReached(v: Content) returns (ms: seq<Move>, r: Sys)
    ensures Leads(Start(v), ms, r) && r.latest == v + 2
    ensures At(r, 2).page == Some(Copy(v + 2, true, true)) && At(r, 3).page == Some(Copy(v + 1, true, false))
  {
    var before, s, ks := BothServed(v);
    assert [Supply(v + 1, false, false), Flush] == [Supply(v + 1, false, false)] + [Flush];
    var e := Held({2, 3}, []);
    var s1 := GetsPage(s, e, Idle, ks, v + 1, v + 1, 2, v + 1, false, [Flush]);
    var q2 := Kernel(Some(Copy(v + 1, true, false)), [Flush], []);
    assert [Supply(v + 1, false, false)] == [Supply(v + 1, false, false)] + [];
    var s2 := GetsPage(s1, e, Idle, ks[2 := q2], v + 1, v + 1, 3, v + 1, false, []);
    var q3 := Kernel(Some(Copy(v + 1, true, false)), [], []);
    r := Writes(s2, e, Idle, ks[2 := q2][3 := q3], v + 1, v + 1, 2, q2);
    ms := Next(v, before, s, Receive(2, false), s1);
    ms := Next(v, ms, s1, Receive(3, false), s2);
    ms := Next(v, ms, s2, Modify(2), r);
    var end := ks[2 := q2][3 := q3][2 := q2.(page := Some(Copy(v + 2, true, true)))];
    assert At(r, 2) == KernelIn(end, 2) && At(r, 3) == KernelIn(end, 3);
  }
}
