/**
Where libpager/pagemap.cc departs from libpager/NOTES in handing a page on: the exact conditions, and
what follows from them for every run.
*/
module PagerLimits {
  import opened PageSpec
  import opened PagerRun

  /** The first waiter alone has the page. */
  predicate FirstAlone(access: set<Client>, ws: seq<Waiter>) {
    |access| == 1 && ws != [] && ws[0].client in access
  }

  // ----- the second call of service_WAITLIST for one dirty return

  /** Serving the returned page a second time does no harm: nobody is left to serve, or the one
      client left wants to write and is the only one served the first time. */
  predicate SecondServiceHarmless(ws: seq<Waiter>) {
    ws == [] ||
    var n := BatchSize(ws, true);
    n == |ws| || (ws[n].write && forall i :: 0 <= i < n ==> ws[i].client == ws[n].client)
  }

  lemma ClientsMembers(ws: seq<Waiter>, c: Client)
    requires ws != []
    ensures Clients(ws) + {c} == {c} <==> forall i :: 0 <= i < |ws| ==> ws[i].client == c
  {
    forall i | 0 <= i < |ws| ensures ws[i].client in Clients(ws) {
      assert ws[i] in ws;
    }
    if forall i :: 0 <= i < |ws| ==> ws[i].client == c {
      forall x | x in Clients(ws) ensures x == c {
        var w :| w in ws && w.client == x;
      }
    } else {
      var i :| 0 <= i < |ws| && ws[i].client != c;
      assert ws[i].client in Clients(ws) + {c};
    }
  }

  /** Writers stay exclusive across the dirty return of a writer exactly when the waiting clients
      make the second service harmless. */
  lemma DirtyReturnExact(s: Run, c: Client, data: Content, err: int)
    requires Orderly(s) && Exclusive(s) && s.pc.Idle?
    requires c in s.page.hist.writers && c != MACH_PORT_DEAD
    ensures Enabled(s, Return(c, data, true, false))
    ensures var returned := Step(s, Return(c, data, true, false));
            && Enabled(returned, WriteDone(err))
            && var written := Step(returned, WriteDone(err));
               written.pc.Idle? && (SingleWriter(written.page) <==> SecondServiceHarmless(s.page.entry.wait))
  {
    var ret, done := Return(c, data, true, false), WriteDone(err);
    SoleMember(s.page.entry.access, c);
    var ws := s.page.entry.wait;
    var returned := Step(s, ret);
    DirtyReturnFirst(s, c, data);
    if ws == [] || BatchSize(ws, true) == |ws| {
      OrderlyStep(s, ret);
      ExclusiveStep(s, ret);
      ExclusiveStep(returned, done);
    } else {
      SecondService(ws, returned, data, err);
    }
  }

  /** The write-back serves a second time. */
  lemma SecondService(ws: seq<Waiter>, s: Run, data: Content, err: int)
    requires ws != [] && BatchSize(ws, true) < |ws| && s.pc == Writing(data, false)
    requires var n := BatchSize(ws, true);
             && s.page.entry.access == Clients(ws[..n]) && s.page.entry.wait == ws[n..]
             && s.page.hist.writers == (if ws[0].write then Clients(ws[..n]) else {})
    ensures var t := Step(s, WriteDone(err)); t.pc.Idle? && (SingleWriter(t.page) <==> SecondServiceHarmless(ws))
  {
    var out := WrittenPage(s.page, err);
    WriteDoneStep(s, data, err);
    ServiceEffect(out, data, true, false);
    SecondServiceOutcome(ws, out, Service(out, data, true, false));
  }

  /** The page as pager_write_page leaves it. */
  function WrittenPage(pg: Page, err: int): (out: Page)
    ensures out.entry.wait == pg.entry.wait && out.entry.access == pg.entry.access && out.hist == pg.hist
    ensures out.entry.writeGranted == pg.entry.writeGranted && out.locks == pg.locks
  {
    var noted := if err == KERN_SUCCESS then pg.(entry := pg.entry.(invalid := false))
                 else pg.(entry := pg.entry.(invalid := true, error := err));
    noted.(entry := noted.entry.(pagingOut := false))
  }

  /** The page when the write-back is over. */
  function WrittenBack(s: Run, data: Content, err: int): Page {
    var out := WrittenPage(s.page, err);
    if out.entry.wait != [] then Service(out, data, true, false) else ClearErrors(out)
  }

  lemma WriteDoneStep(s: Run, data: Content, err: int)
    requires s.pc == Writing(data, false)
    ensures Step(s, WriteDone(err)) == Run(WrittenBack(s, data, err), Idle, None)
  {
  }

  lemma ReadDoneStep(s: Run, err: int, data: Content, writeLock: bool)
    requires s.pc.Paging? && s.page.entry.wait != []
    ensures var noted := s.page.(entry := s.page.entry.(error := err));
            Step(s, ReadDone(err, data, writeLock)) ==
            Finish(if err == KERN_SUCCESS then Service(noted, data, !writeLock, true) else SendError(noted), s.dropping)
  {
  }

  function PagingOut(pg: Page): Page {
    pg.(entry := pg.entry.(pagingOut := true))
  }

  /** The dirty return of the last client with access serves whoever waits, and starts the write-back. */
  lemma LastReturn(s: Run, c: Client, data: Content)
    requires s.pc.Idle? && s.page.entry.access - {c} == {} && c != MACH_PORT_DEAD
    ensures var left := Evict(s.page, c);
            Step(s, Return(c, data, true, false)) ==
            Run(PagingOut(if left.entry.wait == [] then left else Service(left, data, true, false)),
              Writing(data, false), None)
  {
    assert Evict(s.page, c).entry.access == {};
  }

  lemma LastCleanReturn(s: Run, c: Client, data: Content)
    requires s.pc.Idle? && s.page.entry.access - {c} == {} && c != MACH_PORT_DEAD
    ensures var left := Evict(s.page, c);
            Step(s, Return(c, data, false, false)) ==
            Run(if left.entry.wait == [] then ClearErrors(left) else Service(left, data, true, false), Idle, None)
  {
    assert Evict(s.page, c).entry.access == {};
  }

  /** The state in which the write-back of a writer's dirty return starts. */
  lemma DirtyReturnFirst(s: Run, c: Client, data: Content)
    requires Exclusive(s) && s.pc.Idle?
    requires c in s.page.hist.writers && c != MACH_PORT_DEAD
    ensures var r := Step(s, Return(c, data, true, false));
            var ws := s.page.entry.wait;
            && r.pc == Writing(data, false)
            && (if ws == [] then r.page.entry.wait == []
                else var n := BatchSize(ws, true);
                     && r.page.entry.wait == ws[n..] && r.page.entry.access == Clients(ws[..n])
                     && r.page.hist.writers == if ws[0].write then Clients(ws[..n]) else {})
  {
    SoleMember(s.page.entry.access, c);
    LastReturn(s, c, data);
    var left := Evict(s.page, c);
    if left.entry.wait != [] {
      ServiceEffect(left, data, true, false);
      FirstServed(left, Service(left, data, true, false));
    }
  }

  lemma FirstServed(left: Page, r: Page)
    requires left.entry.access == {} && left.hist.writers == {} && left.entry.wait != []
    requires var ws := left.entry.wait;
             var n := BatchSize(ws, true);
             && r.entry.access == left.entry.access + Clients(ws[..n])
             && r.hist.writers == left.hist.writers + (if WriteBatch(ws, true) then Clients(ws[..n]) else {})
    ensures var ws := left.entry.wait;
            var n := BatchSize(ws, true);
            r.entry.access == Clients(ws[..n]) && r.hist.writers == if ws[0].write then Clients(ws[..n]) else {}
  {
  }

  /** What the second service leaves, in terms of the waiters the first was called with. */
  lemma SecondServiceOutcome(ws: seq<Waiter>, out: Page, r: Page)
    requires ws != [] && BatchSize(ws, true) < |ws|
    requires var n := BatchSize(ws, true);
             && out.entry.access == Clients(ws[..n]) && out.entry.wait == ws[n..]
             && out.hist.writers == (if ws[0].write then Clients(ws[..n]) else {})
    requires var rest := out.entry.wait;
             var n := BatchSize(rest, true);
             && r.entry.access == out.entry.access + Clients(rest[..n])
             && r.entry.writeGranted == rest[0].write
             && r.hist.writers == out.hist.writers + (if rest[0].write then Clients(rest[..n]) else {})
    ensures SingleWriter(r) <==> SecondServiceHarmless(ws)
  {
    var n := BatchSize(ws, true);
    var first := Clients(ws[..n]);
    assert ws[0].client in first by { assert ws[..n][0] in ws[..n]; }
    if ws[n].write {
      assert ws[n..][..1] == [ws[n]];
      assert Clients(ws[n..][..1]) == {ws[n].client};
      WriterJoins(r, first, ws[n].client);
      ClientsMembers(ws[..n], ws[n].client);
      assert (forall i :: 0 <= i < n ==> ws[i].client == ws[n].client) <==>
             (forall i :: 0 <= i < |ws[..n]| ==> ws[..n][i].client == ws[n].client);
    } else {
      assert r.hist.writers == first;
    }
  }

  lemma WriterJoins(r: Page, first: set<Client>, w: Client)
    requires r.entry.access == first + {w} && r.entry.writeGranted
    requires r.hist.writers == first + {w} || r.hist.writers == {w}
    ensures SingleWriter(r) <==> first + {w} == {w}
  {
    assert |{w}| == 1;
    if SingleWriter(r) {
      assert w in r.entry.access;
      assert |r.entry.access| != 0;
      SoleMember(r.entry.access, w);
    }
  }

  // ----- concrete runs

  lemma Extend(start: Run, evs: seq<Event>, ev: Event)
    requires Valid(start, evs) && Enabled(Exec(start, evs), ev)
    ensures Valid(start, evs + [ev]) && Exec(start, evs + [ev]) == Step(Exec(start, evs), ev)
  {
    assert (evs + [ev])[..|evs|] == evs;
  }

  lemma GuardedStep(evs: seq<Event>, ev: Event) returns (more: seq<Event>)
    requires GuardedRun(evs) && Enabled(Exec(Init, evs), ev) && !ev.WriteDone?
    ensures more == evs + [ev] && GuardedRun(more) && Exec(Init, more) == Step(Exec(Init, evs), ev)
  {
    more := evs + [ev];
    Extend(Init, evs, ev);
    assert more[..|evs|] == evs;
  }

  /** Client 1 asks for write access to a fresh page and gets it. */
  lemma FirstWriter() returns (evs: seq<Event>)
    ensures GuardedRun(evs) && Exec(Init, evs).pc.Idle? && Exec(Init, evs).dropping.None?
    ensures var pg := Exec(Init, evs).page;
            && pg.entry == Entry({1}, [], false, true, false, KERN_SUCCESS)
            && pg.locks == map[] && pg.nextError == [] && pg.hist.writers == {1}
  {
    FirstRequest();
    evs := GuardedStep([], Request(1, true));
    evs := GuardedStep(evs, ReadDone(KERN_SUCCESS, 7, false));
  }

  lemma FirstRequest()
    ensures var s := Step(Init, Request(1, true));
            && s.pc.Paging?
            && var t := Step(s, ReadDone(KERN_SUCCESS, 7, false));
               && t.pc.Idle? && t.dropping.None?
               && t.page.entry == Entry({1}, [], false, true, false, KERN_SUCCESS)
               && t.page.locks == map[] && t.page.nextError == [] && t.page.hist.writers == {1}
  {
    var s := Step(Init, Request(1, true));
    assert s.page.entry == Entry({}, [Waiter(1, true)], false, false, false, KERN_SUCCESS) && s.pc.Paging?;
    ServiceEffect(s.page, 7, true, true);
    SupplyAllEffect(s.page, s.page.entry.wait[..1], 7, true, false);
    assert s.page.entry.wait[..1] == [Waiter(1, true)];
    assert Clients([Waiter(1, true)]) == {1};
  }

  /** Client 1 writes, the clients of `ws` wait, and nothing else is going on. */
  ghost predicate WriterAndWaiters(s: Run, ws: seq<Waiter>) {
    && s.pc.Idle? && s.dropping.None? && s.page.nextError == []
    && s.page.entry == Entry({1}, ws, false, true, false, KERN_SUCCESS) && s.page.hist.writers == {1}
  }

  /** The first `n` of `ws` come to wait, one after the other. */
  lemma {:induction false} QueueUp(ws: seq<Waiter>, n: nat) returns (evs: seq<Event>)
    requires n <= |ws| && forall i :: 0 <= i < |ws| ==> ws[i].client != 1
    ensures GuardedRun(evs) && WriterAndWaiters(Exec(Init, evs), ws[..n])
  {
    if n == 0 {
      evs := FirstWriter();
    } else {
      evs := QueueUp(ws, n - 1);
      evs := QueueOne(evs, ws, n - 1);
    }
  }

  lemma PrefixMore(ws: seq<Waiter>, n: nat)
    requires n < |ws|
    ensures ws[..n + 1] == ws[..n] + [ws[n]]
  {
  }

  lemma QueueOne(evs: seq<Event>, ws: seq<Waiter>, n: nat) returns (more: seq<Event>)
    requires n < |ws| && ws[n].client != 1
    requires GuardedRun(evs) && WriterAndWaiters(Exec(Init, evs), ws[..n])
    ensures GuardedRun(more) && WriterAndWaiters(Exec(Init, more), ws[..n + 1])
  {
    var s := Exec(Init, evs);
    PrefixMore(ws, n);
    var t := OneMoreWaiter(s, ws[..n], ws[n], ws[..n + 1]);
    more := GuardedStep(evs, Request(ws[n].client, ws[n].write));
    assert Exec(Init, more) == t;
  }

  lemma OneMoreWaiter(s: Run, ws: seq<Waiter>, w: Waiter, more: seq<Waiter>) returns (t: Run)
    requires WriterAndWaiters(s, ws) && w.client != 1 && more == ws + [w]
    ensures t == Step(s, Request(w.client, w.write)) && WriterAndWaiters(t, more)
  {
    t := Step(s, Request(w.client, w.write));
  }

  /** Two clients wait to write while a third one writes: its dirty return gives both of them write
      access. */
  lemma TwoWritersAreReached() returns (evs: seq<Event>)
    ensures Valid(Init, evs) && Exec(Init, evs).pc.Idle?
    ensures Exec(Init, evs).page.hist.writers == {2, 3} && !SingleWriter(Exec(Init, evs).page)
  {
    var ws := [Waiter(2, true), Waiter(3, true)];
    evs := QueueUp(ws, 2);
    assert ws[..2] == ws;
    var s := Exec(Init, evs);
    WriteAccessIsExclusive(evs);
    FirstOfTwo(s);
    var e4, e5 := Return(1, 8, true, false), WriteDone(KERN_SUCCESS);
    SecondWriter(Step(s, e4), 2, 3, 8);
    Extend(Init, evs, e4);
    Extend(Init, evs + [e4], e5);
    evs := evs + [e4] + [e5];
  }

  lemma FirstOfTwo(s: Run)
    requires Exclusive(s) && WriterAndWaiters(s, [Waiter(2, true), Waiter(3, true)])
    ensures var t := Step(s, Return(1, 8, true, false));
            t.pc == Writing(8, false) && t.page.hist.writers == {2} && t.page.entry.wait == [Waiter(3, true)]
  {
    DirtyReturnFirst(s, 1, 8);
    assert s.page.entry.wait[..1] == [Waiter(2, true)];
    assert Clients([Waiter(2, true)]) == {2};
  }

  /** The second service of a write-back gives `b` write access beside `a`. */
  lemma SecondWriter(s: Run, a: Client, b: Client, data: Content)
    requires s.pc == Writing(data, false) && s.page.hist.writers == {a} && s.page.entry.wait == [Waiter(b, true)] &&
      a != b
    ensures var t := Step(s, WriteDone(KERN_SUCCESS));
            t.pc.Idle? && t.page.hist.writers == {a, b} && !SingleWriter(t.page)
  {
    var out := WrittenPage(s.page, KERN_SUCCESS);
    WriteDoneStep(s, data, KERN_SUCCESS);
    ServiceEffect(out, data, true, false);
    assert out.entry.wait[..1] == [Waiter(b, true)];
    assert Clients([Waiter(b, true)]) == {b};
    assert |{a, b}| == 2;
  }
}
