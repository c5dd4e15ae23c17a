/**
The theorem of libpager/NOTES:945, that at most one client is on both ACCESSLIST and WAITLIST: it holds
for clients that do not ask again while they wait.
*/
module NotesTheorems {
  import opened PageSpec
  import opened PagerRun
  import opened PagerLimits

  // ----- clients on both lists (libpager/NOTES:945)

  ghost predicate Waits(pg: Page, c: Client) {
    exists i :: 0 <= i < |pg.entry.wait| && pg.entry.wait[i].client == c
  }

  ghost predicate OnBoth(pg: Page, c: Client) {
    c in pg.entry.access && Waits(pg, c)
  }

  ghost predicate OncePerClient(ws: seq<Waiter>) {
    forall i, j :: 0 <= i < j < |ws| ==> ws[i].client != ws[j].client
  }

  /** The client of the `i`th entry of WAITLIST is also on ACCESSLIST. */
  predicate Overlaps(pg: Page, i: int) {
    0 <= i < |pg.entry.wait| && pg.entry.wait[i].client in pg.entry.access
  }

  /** Nobody waits twice, a client on both lists waits to write, and there is at most one. */
  ghost predicate FewOnBoth(pg: Page) {
    && OncePerClient(pg.entry.wait)
    && (forall i :: Overlaps(pg, i) ==> pg.entry.wait[i].write)
    && (forall i, j :: Overlaps(pg, i) && Overlaps(pg, j) ==> i == j)
  }

  /** A client does not ask again while its request waits. */
  ghost predicate Polite(s: Run, ev: Event) {
    ev.Request? || ev.AskUnlock? ==> !Waits(s.page, ev.client)
  }

  ghost predicate PoliteRun(evs: seq<Event>)
    decreases |evs|
  {
    Valid(Init, evs) &&
    (evs != [] ==> PoliteRun(evs[..|evs| - 1]) && Polite(Exec(Init, evs[..|evs| - 1]), evs[|evs| - 1]))
  }

  /** Fewer on either list. */
  lemma Less(pg: Page, q: Page)
    requires FewOnBoth(pg) && q.entry.wait == pg.entry.wait && q.entry.access <= pg.entry.access
    ensures FewOnBoth(q)
  {
    forall i | Overlaps(q, i) ensures Overlaps(pg, i) {
    }
  }

  lemma AtMostOne(pg: Page)
    requires FewOnBoth(pg)
    ensures forall c, d :: OnBoth(pg, c) && OnBoth(pg, d) ==> c == d
  {
    forall c, d | OnBoth(pg, c) && OnBoth(pg, d) ensures c == d {
      var i :| 0 <= i < |pg.entry.wait| && pg.entry.wait[i].client == c;
      var j :| 0 <= j < |pg.entry.wait| && pg.entry.wait[j].client == d;
      assert Overlaps(pg, i) && Overlaps(pg, j);
    }
  }

  lemma NobodyOnBoth(q: Page)
    requires OncePerClient(q.entry.wait) && forall i :: 0 <= i < |q.entry.wait| ==>
      q.entry.wait[i].client !in q.entry.access
    ensures FewOnBoth(q)
  {
  }

  lemma NotInBatch(ws: seq<Waiter>, n: nat, i: nat)
    requires OncePerClient(ws) && n <= i < |ws|
    ensures ws[i].client !in Clients(ws[..n])
  {
    forall w | w in ws[..n] ensures w.client != ws[i].client {
      var j :| 0 <= j < n && ws[j] == w;
    }
  }

  /** Who is on both lists after a service was on both lists before. */
  lemma ServiceFew(pg: Page, data: Content, allowWrite: bool, dealloc: bool)
    requires FewOnBoth(pg) && pg.entry.wait != []
    ensures FewOnBoth(Service(pg, data, allowWrite, dealloc))
  {
    ServiceEffect(pg, data, allowWrite, dealloc);
    var ws, r := pg.entry.wait, Service(pg, data, allowWrite, dealloc);
    var n := BatchSize(ws, allowWrite);
    forall i | Overlaps(r, i) ensures Overlaps(pg, n + i) && r.entry.wait[i] == ws[n + i] {
      NotInBatch(ws, n, n + i);
    }
  }

  lemma CompleteFew(s: Run, pg: Page, c: Client, dropping: Option<Client>)
    requires OncePerClient(pg.entry.wait)
    requires FewOnBoth(Evict(pg, c)) && (c !in pg.entry.access || pg.entry.wait == [] ==> FewOnBoth(pg))
    ensures var t := Continue(s, CompleteInternal(pg, c), dropping); t.pc.Halted? || FewOnBoth(t.page)
  {
    var left := Evict(pg, c);
    ErrorAllEffect(left, left.entry.wait);
    var t := Continue(s, CompleteInternal(pg, c), dropping);
    if !t.pc.Halted? && t.page.entry.wait != [] {
      var q := if c in pg.entry.access && pg.entry.wait != [] then left else pg;
      Less(q, t.page);
    }
  }

  lemma RequestFew(s: Run, c: Client, write: bool)
    requires Orderly(s) && s.pc.Idle? && FewOnBoth(s.page) && !Waits(s.page, c)
    ensures var t := Step(s, Request(c, write)); t.pc.Halted? || FewOnBoth(t.page)
  {
    var pg := s.page;
    if FirstError(pg.nextError, c) < |pg.nextError| {
      Less(pg, Step(s, Request(c, write)).page);
    } else if c in pg.entry.access && pg.entry.wait != [] {
      var q := Enqueue(pg, c, write);
      Joins(pg, Evict(q, c), Waiter(c, write));
      CompleteFew(s, q, c, None);
    } else {
      var t := Step(s, Request(c, write));
      assert t.page.entry.wait == pg.entry.wait + [Waiter(c, write)];
      assert t.page.entry.access == pg.entry.access - {c};
      Joins(pg, t.page, Waiter(c, write));
    }
  }

  /** A client that did not wait, and is not or no longer on ACCESSLIST, waits now. */
  lemma Joins(pg: Page, q: Page, w: Waiter)
    requires FewOnBoth(pg) && !Waits(pg, w.client)
    requires q.entry.wait == pg.entry.wait + [w] && q.entry.access <= pg.entry.access - {w.client}
    ensures FewOnBoth(q)
  {
    forall i | Overlaps(q, i) ensures Overlaps(pg, i) {
    }
    assert forall i :: 0 <= i < |pg.entry.wait| ==> q.entry.wait[i] == pg.entry.wait[i];
  }

  lemma UnlockFew(s: Run, c: Client)
    requires s.pc.Idle? && FewOnBoth(s.page) && !Waits(s.page, c)
    ensures var t := Step(s, AskUnlock(c)); t.pc.Halted? || FewOnBoth(t.page)
  {
    var t := Step(s, AskUnlock(c));
    if !t.pc.Halted? {
      assert t.page.entry.access == s.page.entry.access;
      assert t.page.entry.wait == s.page.entry.wait || t.page.entry.wait == s.page.entry.wait + [Waiter(c, true)];
    }
  }

  lemma ReturnFew(s: Run, c: Client, data: Content, dirty: bool, kernelCopy: bool)
    requires s.pc.Idle? && FewOnBoth(s.page)
    ensures var t := Step(s, Return(c, data, dirty, kernelCopy)); t.pc.Halted? || FewOnBoth(t.page)
  {
    var left := if kernelCopy || c == MACH_PORT_DEAD then s.page else Evict(s.page, c);
    Less(s.page, left);
    ReturnLists(s, c, data, dirty, kernelCopy);
    var t := Step(s, Return(c, data, dirty, kernelCopy));
    if t.pc.Halted? {
    } else if !kernelCopy && left.entry.access == {} && left.entry.wait != [] {
      ServiceFew(left, data, true, false);
      Less(Service(left, data, true, false), t.page);
    } else {
      Less(left, t.page);
    }
  }

  lemma FinishFew(pg: Page, dropping: Option<Client>)
    requires FewOnBoth(pg)
    ensures FewOnBoth(Finish(pg, dropping).page)
  {
    Less(pg, Finish(pg, dropping).page);
  }

  lemma EndFew(s: Run, ev: Event)
    requires Orderly(s) && FewOnBoth(s.page) && Enabled(s, ev)
    requires ev.ReadDone? || ev.UnlockDone? || ev.WriteDone?
    ensures var t := Step(s, ev); t.pc.Halted? || FewOnBoth(t.page)
  {
    match ev
    case ReadDone(err, data, writeLock) =>
      var noted := s.page.(entry := s.page.entry.(error := err));
      if err == KERN_SUCCESS {
        Less(s.page, noted);
        ServiceFew(noted, data, !writeLock, true);
      } else {
        ErrorAllEffect(noted, noted.entry.wait);
      }
      FinishFew(EndPageIn(s.page, err, data, writeLock), s.dropping);
    case UnlockDone(err) =>
      NobodyOnBoth(FinalizeUnlock(s.page, err));
      FinishFew(FinalizeUnlock(s.page, err), s.dropping);
    case WriteDone(err) => WriteFew(s, err);
  }

  lemma WriteFew(s: Run, err: int)
    requires FewOnBoth(s.page) && s.pc.Writing?
    ensures var t := Step(s, WriteDone(err)); t.pc.Halted? || FewOnBoth(t.page)
  {
    var out := WrittenPage(s.page, err);
    Less(s.page, out);
    if !s.pc.kernelCopy && out.entry.wait != [] {
      ServiceFew(out, s.pc.data, true, false);
    } else {
      Less(out, Step(s, WriteDone(err)).page);
    }
  }

  lemma StepFew(s: Run, ev: Event)
    requires Orderly(s) && FewOnBoth(s.page) && Enabled(s, ev) && Polite(s, ev)
    ensures var t := Step(s, ev); t.pc.Halted? || FewOnBoth(t.page)
  {
    match ev
    case Request(c, write) => RequestFew(s, c, write);
    case AskUnlock(c) => UnlockFew(s, c);
    case Return(c, data, dirty, kernelCopy) => ReturnFew(s, c, data, dirty, kernelCopy);
    case Completed(c) =>
      var closed := s.page.(locks := s.page.locks - {c});
      Less(s.page, closed);
      Less(s.page, Evict(closed, c));
      CompleteFew(s, closed, c, None);
      if Count(s.page, c) > 1 {
        Less(s.page, Step(s, ev).page);
      }
    case Dropped(c) =>
      var closed := s.page.(locks := s.page.locks - {c});
      Less(s.page, closed);
      Less(s.page, Evict(closed, c));
      CompleteFew(s, closed, c, Some(c));
      FinishFew(closed, Some(c));
    case Locked(cs, keep, flush, reply) => Less(s.page, Step(s, ev).page);
    case _ => EndFew(s, ev);
  }

  lemma {:induction false} PoliteRunKeeps(evs: seq<Event>)
    requires PoliteRun(evs) && !Exec(Init, evs).pc.Halted?
    ensures FewOnBoth(Exec(Init, evs).page)
    decreases |evs|
  {
    if evs != [] {
      var before := evs[..|evs| - 1];
      var s := Exec(Init, before);
      assert Enabled(s, evs[|evs| - 1]) && !s.pc.Halted?;
      PoliteRunKeeps(before);
      RevocationInProgress(before);
      StepFew(s, evs[|evs| - 1]);
    }
  }

  /** In every run in which no client asks again while it waits, at most one client is on both lists. */
  lemma AtMostOneOnBoth(evs: seq<Event>)
    requires PoliteRun(evs) && !Exec(Init, evs).pc.Halted?
    ensures forall c, d :: OnBoth(Exec(Init, evs).page, c) && OnBoth(Exec(Init, evs).page, d) ==> c == d
  {
    PoliteRunKeeps(evs);
    AtMostOne(Exec(Init, evs).page);
  }

  const Five := [Waiter(2, false), Waiter(3, false), Waiter(4, true), Waiter(2, false), Waiter(3, false)]

  /** Clients that do ask again while they wait can get further: with 2, 3, 4, 2 and 3 waiting, in this
      order, and 4 to write, serving the first two readers leaves both on both lists. */
  lemma ImpoliteClients() returns (evs: seq<Event>)
    ensures GuardedRun(evs) && Exec(Init, evs).pc.Idle?
    ensures OnBoth(Exec(Init, evs).page, 2) && OnBoth(Exec(Init, evs).page, 3)
  {
    evs := QueueUp(Five, 5);
    assert Five[..5] == Five;
    BothServed(Exec(Init, evs));
    evs := GuardedStep(evs, Return(1, 8, false, false));
  }

  lemma BothServed(s: Run)
    requires WriterAndWaiters(s, Five)
    ensures var t := Step(s, Return(1, 8, false, false)); t.pc.Idle? && OnBoth(t.page, 2) && OnBoth(t.page, 3)
  {
    var left := Evict(s.page, 1);
    LastCleanReturn(s, 1, 8);
    BatchOfTwo();
    ServiceEffect(left, 8, true, false);
    var r := Service(left, 8, true, false);
    assert r.entry.wait[1] == Five[3] && r.entry.wait[2] == Five[4];
  }

  lemma BatchOfTwo()
    ensures BatchSize(Five, true) == 2 && 2 in Clients(Five[..2]) && 3 in Clients(Five[..2])
  {
    assert ReaderRun(Five[1..][1..]) == 0;
    assert ReaderRun(Five[1..]) == 1;
    assert Five[..2] == [Five[0], Five[1]];
    assert Five[0] in Five[..2] && Five[1] in Five[..2];
  }
}
