/**
The theorem of libpager/NOTES:945 without any hypothesis on the clients: exactly which events put two clients
on both ACCESSLIST and WAITLIST.
*/
module BothLists {
  import opened PageSpec
  import opened PagerRun
  import opened PagerLimits
  import opened NotesTheorems

  /** Two different clients are on both lists. */
  ghost predicate TwoOnBoth(pg: Page) {
    exists c, d :: c != d && OnBoth(pg, c) && OnBoth(pg, d)
  }

  /** `c` has an entry in `ws` from `n` on. */
  ghost predicate WaitsBehind(ws: seq<Waiter>, n: nat, c: Client) {
    exists i :: n <= i < |ws| && ws[i].client == c
  }

  /** `c` has access, or gets it with the first batch of `ws`, is not `gone`, and also waits behind the batch. */
  ghost predicate ServedAndWaiting(access: set<Client>, ws: seq<Waiter>, allowWrite: bool, gone: Option<Client>,
                                   c: Client)
    requires ws != []
  {
    var n := BatchSize(ws, allowWrite);
    c in access + Clients(ws[..n]) && gone != Some(c) && WaitsBehind(ws, n, c)
  }

  ghost predicate TwoServedAndWaiting(access: set<Client>, ws: seq<Waiter>, allowWrite: bool, gone: Option<Client>)
    requires ws != []
  {
    exists c, d :: c != d && ServedAndWaiting(access, ws, allowWrite, gone, c) &&
                   ServedAndWaiting(access, ws, allowWrite, gone, d)
  }

  /** Exactly what puts two clients on both lists: a service of a WAITLIST on which two clients that have or get
      access wait again behind the batch, or an unlock request, while no writer waits, when another client
      is on both lists. */
  ghost predicate PutsTwo(s: Run, ev: Event)
    requires Enabled(s, ev) && (s.pc.Paging? ==> s.page.entry.wait != [])
  {
    var e := s.page.entry;
    match ev
    case AskUnlock(c) =>
      && c in e.access && !e.writeGranted && !e.pagingOut && !AnyWriter(e.wait)
      && exists d :: d != c && OnBoth(s.page, d)
    case Return(c, _, _, kernelCopy) =>
      && !kernelCopy && e.wait != []
      && (if c == MACH_PORT_DEAD then e.access else e.access - {c}) == {}
      && TwoServedAndWaiting({}, e.wait, true, None)
    case ReadDone(err, _, writeLock) =>
      err == KERN_SUCCESS && TwoServedAndWaiting(e.access, e.wait, !writeLock, s.dropping)
    case WriteDone(_) =>
      !s.pc.kernelCopy && e.wait != [] && TwoServedAndWaiting(e.access, e.wait, true, None)
    case _ => false
  }

  /** Everybody on both lists of `q` is on both lists of `pg`. */
  ghost predicate NoMore(pg: Page, q: Page) {
    forall c :: OnBoth(q, c) ==> OnBoth(pg, c)
  }

  lemma FewerLists(pg: Page, q: Page)
    requires q.entry.wait == pg.entry.wait && q.entry.access <= pg.entry.access
    ensures NoMore(pg, q)
  {
    forall c | OnBoth(q, c) ensures OnBoth(pg, c) {
      var i :| 0 <= i < |q.entry.wait| && q.entry.wait[i].client == c;
    }
  }

  /** A client that is not, or no longer, on ACCESSLIST comes to wait. */
  lemma JoinsFrom(pg: Page, q: Page, w: Waiter)
    requires q.entry.wait == pg.entry.wait + [w] && q.entry.access <= pg.entry.access - {w.client}
    ensures NoMore(pg, q)
  {
    forall c | OnBoth(q, c) ensures OnBoth(pg, c) {
      var i :| 0 <= i < |q.entry.wait| && q.entry.wait[i].client == c;
      assert i < |pg.entry.wait| && pg.entry.wait[i].client == c;
    }
  }

  lemma NoneWait(pg: Page, q: Page)
    requires q.entry.wait == []
    ensures NoMore(pg, q)
  {
  }

  // ----- services

  lemma ServiceBoth(pg: Page, data: Content, allowWrite: bool, dealloc: bool, c: Client)
    requires pg.entry.wait != []
    ensures OnBoth(Service(pg, data, allowWrite, dealloc), c) <==>
            ServedAndWaiting(pg.entry.access, pg.entry.wait, allowWrite, None, c)
  {
    ServiceEffect(pg, data, allowWrite, dealloc);
    WaitsInRest(pg.entry.wait, BatchSize(pg.entry.wait, allowWrite), c);
  }

  lemma WaitsInRest(ws: seq<Waiter>, n: nat, c: Client)
    requires n <= |ws|
    ensures WaitsBehind(ws, n, c) <==> exists i :: 0 <= i < |ws[n..]| && ws[n..][i].client == c
  {
    if WaitsBehind(ws, n, c) {
      var i :| n <= i < |ws| && ws[i].client == c;
      assert ws[n..][i - n].client == c;
    }
    if exists i :: 0 <= i < |ws[n..]| && ws[n..][i].client == c {
      var i :| 0 <= i < |ws[n..]| && ws[n..][i].client == c;
      assert ws[n + i].client == c;
    }
  }

  lemma FinishBoth(pg: Page, dropping: Option<Client>, c: Client)
    ensures OnBoth(Finish(pg, dropping).page, c) <==> OnBoth(pg, c) && dropping != Some(c)
  {
  }

  /** After a service, and perhaps the end of a drop_client, two clients are on both lists exactly if two had or
      got access and wait behind the batch. */
  lemma ServiceTwo(pg: Page, data: Content, allowWrite: bool, dealloc: bool, gone: Option<Client>)
    requires pg.entry.wait != []
    ensures TwoOnBoth(Finish(Service(pg, data, allowWrite, dealloc), gone).page) <==>
            TwoServedAndWaiting(pg.entry.access, pg.entry.wait, allowWrite, gone)
  {
    var t := Finish(Service(pg, data, allowWrite, dealloc), gone).page;
    forall c ensures OnBoth(t, c) <==> ServedAndWaiting(pg.entry.access, pg.entry.wait, allowWrite, gone, c) {
      FinishBoth(Service(pg, data, allowWrite, dealloc), gone, c);
      ServiceBoth(pg, data, allowWrite, dealloc, c);
    }
  }

  lemma SameTwo(pg: Page, q: Page)
    requires SameLists(pg, q)
    ensures TwoOnBoth(pg) <==> TwoOnBoth(q)
  {
    assert forall c :: Waits(pg, c) <==> Waits(q, c);
    assert forall c :: OnBoth(pg, c) <==> OnBoth(q, c);
  }

  lemma NoMoreTwo(pg: Page, q: Page)
    requires NoMore(pg, q) && !TwoOnBoth(pg)
    ensures !TwoOnBoth(q)
  {
  }

  // ----- the events

  lemma CompleteNoMore(s: Run, pg: Page, c: Client, dropping: Option<Client>)
    requires dropping == None || dropping == Some(c)
    ensures var t := Continue(s, CompleteInternal(pg, c), dropping);
            t.pc.Halted? || NoMore(pg, t.page)
    ensures c in pg.entry.access && pg.entry.wait != [] ==>
            var t := Continue(s, CompleteInternal(pg, c), dropping);
            t.pc.Halted? || NoMore(Evict(pg, c), t.page)
  {
    var left := Evict(pg, c);
    ErrorAllEffect(left, left.entry.wait);
    var t := Continue(s, CompleteInternal(pg, c), dropping);
    if t.page.entry.wait == [] {
      NoneWait(pg, t.page);
      NoneWait(left, t.page);
    } else if !t.pc.Halted? {
      FewerLists(pg, t.page);
      if c in pg.entry.access && pg.entry.wait != [] {
        FewerLists(left, t.page);
      }
    }
  }

  lemma RequestNoTwo(s: Run, c: Client, write: bool)
    requires Orderly(s) && s.pc.Idle? && !TwoOnBoth(s.page)
    ensures !TwoOnBoth(Step(s, Request(c, write)).page)
  {
    var pg, t := s.page, Step(s, Request(c, write));
    RequestLists(s, c, write);
    if FirstError(pg.nextError, c) < |pg.nextError| {
      FewerLists(pg, t.page);
    } else if c in pg.entry.access && pg.entry.wait != [] {
      var q := Enqueue(pg, c, write);
      CompleteNoMore(s, q, c, None);
      JoinsFrom(pg, Evict(q, c), Waiter(c, write));
    } else {
      JoinsFrom(pg, t.page, Waiter(c, write));
    }
    if !t.pc.Halted? {
      assert NoMore(pg, t.page);
      NoMoreTwo(pg, t.page);
    }
  }

  lemma AskTwo(s: Run, c: Client)
    requires s.pc.Idle? && !TwoOnBoth(s.page)
    ensures TwoOnBoth(Step(s, AskUnlock(c)).page) <==> PutsTwo(s, AskUnlock(c))
  {
    var pg, t := s.page, Step(s, AskUnlock(c));
    if t.page.entry.wait == pg.entry.wait {
      FewerLists(pg, t.page);
      NoMoreTwo(pg, t.page);
    } else {
      assert t.page.entry.wait == pg.entry.wait + [Waiter(c, true)] && t.page.entry.access == pg.entry.access;
      forall d ensures OnBoth(t.page, d) <==> OnBoth(pg, d) || d == c {
        OneMoreWaits(pg, t.page, Waiter(c, true), d);
      }
      assert OnBoth(t.page, c);
      if exists d :: d != c && OnBoth(pg, d) {
        var d :| d != c && OnBoth(pg, d);
        assert OnBoth(t.page, d);
      }
      if TwoOnBoth(t.page) {
        var x: Client, y: Client :| x != y && OnBoth(t.page, x) && OnBoth(t.page, y);
        assert OnBoth(pg, if x == c then y else x);
      }
    }
  }

  lemma OneMoreWaits(pg: Page, q: Page, w: Waiter, d: Client)
    requires q.entry.wait == pg.entry.wait + [w]
    ensures Waits(q, d) <==> Waits(pg, d) || d == w.client
  {
    if Waits(pg, d) {
      var i :| 0 <= i < |pg.entry.wait| && pg.entry.wait[i].client == d;
      assert q.entry.wait[i].client == d;
    }
    assert q.entry.wait[|pg.entry.wait|].client == w.client;
  }

  lemma ReturnTwo(s: Run, c: Client, data: Content, dirty: bool, kernelCopy: bool)
    requires s.pc.Idle? && !TwoOnBoth(s.page)
    ensures var ev := Return(c, data, dirty, kernelCopy); TwoOnBoth(Step(s, ev).page) <==> PutsTwo(s, ev)
  {
    var left := if kernelCopy || c == MACH_PORT_DEAD then s.page else Evict(s.page, c);
    if !kernelCopy && left.entry.access == {} && left.entry.wait != [] {
      ServingReturnTwo(s, c, data, dirty, left);
    } else {
      OtherReturnTwo(s, c, data, dirty, kernelCopy, left);
    }
  }

  lemma ServingReturnTwo(s: Run, c: Client, data: Content, dirty: bool, left: Page)
    requires s.pc.Idle? && left == (if c == MACH_PORT_DEAD then s.page else Evict(s.page, c))
    requires left.entry.access == {} && left.entry.wait != []
    ensures TwoOnBoth(Step(s, Return(c, data, dirty, false)).page) <==>
            TwoServedAndWaiting({}, left.entry.wait, true, None)
  {
    ReturnLists(s, c, data, dirty, false);
    ServiceTwo(left, data, true, false, None);
    ServesNotStops(s, c, data, dirty);
    SameTwo(Step(s, Return(c, data, dirty, false)).page, Service(left, data, true, false));
  }

  lemma OtherReturnTwo(s: Run, c: Client, data: Content, dirty: bool, kernelCopy: bool, left: Page)
    requires s.pc.Idle? && !TwoOnBoth(s.page)
    requires left == if kernelCopy || c == MACH_PORT_DEAD then s.page else Evict(s.page, c)
    requires kernelCopy || left.entry.access != {} || left.entry.wait == []
    ensures !TwoOnBoth(Step(s, Return(c, data, dirty, kernelCopy)).page)
  {
    var t := Step(s, Return(c, data, dirty, kernelCopy));
    ReturnLists(s, c, data, dirty, kernelCopy);
    if !t.pc.Halted? {
      FewerLists(s.page, t.page);
      NoMoreTwo(s.page, t.page);
    }
  }

  lemma ServesNotStops(s: Run, c: Client, data: Content, dirty: bool)
    requires s.pc.Idle? && (if c == MACH_PORT_DEAD then s.page else Evict(s.page, c)).entry.access == {}
    ensures !Step(s, Return(c, data, dirty, false)).pc.Halted?
  {
  }

  lemma ReadTwo(s: Run, err: int, data: Content, writeLock: bool)
    requires Orderly(s) && s.pc.Paging?
    ensures var ev := ReadDone(err, data, writeLock); TwoOnBoth(Step(s, ev).page) <==> PutsTwo(s, ev)
  {
    var noted := s.page.(entry := s.page.entry.(error := err));
    ReadDoneStep(s, err, data, writeLock);
    if err == KERN_SUCCESS {
      ServiceTwo(noted, data, !writeLock, true, s.dropping);
    }
  }

  lemma UnlockNoTwo(s: Run, err: int)
    requires Orderly(s) && s.pc.Unlocking?
    ensures !TwoOnBoth(Step(s, UnlockDone(err)).page)
  {
    var w := s.page.entry.wait[0].client;
    assert FinalizeUnlock(s.page, err).entry.access == {w};
    forall c | OnBoth(Step(s, UnlockDone(err)).page, c) ensures c == w {
      FinishBoth(FinalizeUnlock(s.page, err), s.dropping, c);
    }
  }

  lemma WriteTwo(s: Run, err: int)
    requires s.pc.Writing? && !TwoOnBoth(s.page)
    ensures TwoOnBoth(Step(s, WriteDone(err)).page) <==> PutsTwo(s, WriteDone(err))
  {
    var t := Step(s, WriteDone(err));
    var out := WrittenPage(s.page, err);
    if !s.pc.kernelCopy && out.entry.wait != [] {
      WriteDoneStep(s, s.pc.data, err);
      ServiceTwo(out, s.pc.data, true, false, None);
    } else {
      FewerLists(s.page, t.page);
      NoMoreTwo(s.page, t.page);
    }
  }

  lemma ClosingNoTwo(s: Run, c: Client, dropping: Option<Client>)
    requires s.pc.Idle? && !TwoOnBoth(s.page) && (dropping == None || dropping == Some(c))
    ensures var closed := s.page.(locks := s.page.locks - {c});
            && !TwoOnBoth(Continue(s, CompleteInternal(closed, c), dropping).page)
            && !TwoOnBoth(Finish(closed, dropping).page)
  {
    var closed := s.page.(locks := s.page.locks - {c});
    FewerLists(s.page, closed);
    NoMoreTwo(s.page, closed);
    CompleteNoMore(s, closed, c, dropping);
    FewerLists(closed, Finish(closed, dropping).page);
    NoMoreTwo(closed, Finish(closed, dropping).page);
    var t := Continue(s, CompleteInternal(closed, c), dropping);
    if !t.pc.Halted? {
      NoMoreTwo(closed, t.page);
    }
  }

  lemma ReplyNoTwo(s: Run, c: Client)
    requires s.pc.Idle? && !TwoOnBoth(s.page)
    ensures !TwoOnBoth(Step(s, Completed(c)).page)
  {
    ClosingNoTwo(s, c, None);
    var t := Step(s, Completed(c));
    if Count(s.page, c) != 1 {
      FewerLists(s.page, t.page);
      NoMoreTwo(s.page, t.page);
    }
  }

  /** From an orderly state without two clients on both lists, an event puts two there if and only if it is one
      of these; for all clients. */
  lemma TwoOnBothExactly(s: Run, ev: Event)
    requires Orderly(s) && Enabled(s, ev) && !TwoOnBoth(s.page)
    ensures TwoOnBoth(Step(s, ev).page) <==> PutsTwo(s, ev)
  {
    match ev
    case Request(c, write) => RequestNoTwo(s, c, write);
    case Completed(c) => ReplyNoTwo(s, c);
    case AskUnlock(c) => AskTwo(s, c);
    case Return(c, data, dirty, kernelCopy) => ReturnTwo(s, c, data, dirty, kernelCopy);
    case Dropped(c) => ClosingNoTwo(s, c, Some(c));
    case ReadDone(err, data, writeLock) => ReadTwo(s, err, data, writeLock);
    case UnlockDone(err) => UnlockNoTwo(s, err);
    case WriteDone(err) => WriteTwo(s, err);
    case Locked(cs, keep, flush, reply) =>
      FewerLists(s.page, Step(s, ev).page);
      NoMoreTwo(s.page, Step(s, ev).page);
  }

  /** The event puts two clients on both lists. */
  ghost predicate TwoAt(s: Run, ev: Event) {
    Enabled(s, ev) && Orderly(s) && PutsTwo(s, ev)
  }

  /** The `k`th event of the run put two clients on both lists. */
  ghost predicate TwoBy(evs: seq<Event>, k: nat) {
    k < |evs| && Valid(Init, evs[..k]) && TwoAt(Exec(Init, evs[..k]), evs[k])
  }

  lemma TwoByLast(evs: seq<Event>)
    requires evs != [] && Valid(Init, evs)
    requires !TwoOnBoth(Exec(Init, evs[..|evs| - 1]).page) && TwoOnBoth(Exec(Init, evs).page)
    ensures TwoBy(evs, |evs| - 1)
  {
    RevocationInProgress(evs[..|evs| - 1]);
    TwoOnBothExactly(Exec(Init, evs[..|evs| - 1]), evs[|evs| - 1]);
  }

  lemma TwoByEarlier(evs: seq<Event>, k: nat)
    requires evs != [] && TwoBy(evs[..|evs| - 1], k)
    ensures TwoBy(evs, k)
  {
    PrefixOfPrefix(evs, k);
  }

  lemma NoTwoAtFirst()
    ensures !TwoOnBoth(Init.page)
  {
  }

  /** So over every run the theorem holds as long as none of these has happened. */
  lemma {:induction false} TwoByWhat(evs: seq<Event>) returns (k: nat)
    requires Valid(Init, evs) && TwoOnBoth(Exec(Init, evs).page)
    ensures TwoBy(evs, k)
    decreases |evs|
  {
    NoTwoAtFirst();
    if TwoOnBoth(Exec(Init, evs[..|evs| - 1]).page) {
      k := TwoByWhat(evs[..|evs| - 1]);
      TwoByEarlier(evs, k);
    } else {
      TwoByLast(evs);
      k := |evs| - 1;
    }
  }
}
