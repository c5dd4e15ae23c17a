/**
Runs of the pager on one page, with the handlers serialized as the worker pool serializes them:
a handler that dropped the lock around a backing-store call finishes before the next one starts,
and only the translator's lock requests come in between.
*/
module PagerRun {
  import opened PageSpec

  datatype Option<T> = None | Some(value: T)

  datatype Pc =
    | Idle
    | Paging                                       // in pager_read_page
    | Unlocking                                    // in pager_unlock_page
    | Writing(data: Content, kernelCopy: bool)     // in pager_write_page
    | Halted                                       // an assert failed
    | Thrown                                       // out_of_range from an empty WAITLIST

  /** `dropping` is the client whose drop_client call is under way. */
  datatype Run = Run(page: Page, pc: Pc, dropping: Option<Client>)

  const Init := Run(EmptyPage, Idle, None)

  datatype Event =
    | Request(client: Client, write: bool)
    | Completed(client: Client)
    | AskUnlock(client: Client)
    | Return(client: Client, data: Content, dirty: bool, kernelCopy: bool)
    | Dropped(client: Client)
    | ReadDone(err: int, data: Content, writeLock: bool)
    | UnlockDone(err: int)
    | WriteDone(err: int)
    | Locked(clients: set<Client>, keep: Keep, flush: bool, reply: bool)

  /** Which events can happen: a message waits until the pager is idle. */
  predicate Enabled(s: Run, ev: Event) {
    match ev
    case ReadDone(_, _, _) => s.pc.Paging?
    case UnlockDone(_) => s.pc.Unlocking?
    case WriteDone(_) => s.pc.Writing?
    case Locked(_, _, _, _) => !s.pc.Halted? && !s.pc.Thrown?
    case _ => s.pc.Idle?
  }

  /** The end of a handler, with the rest of drop_client if that is what called it. */
  function Finish(pg: Page, dropping: Option<Client>): Run {
    Run(if dropping.Some? then DropAccess(pg, dropping.value) else pg, Idle, None)
  }

  function Continue(s: Run, out: Outcome, dropping: Option<Client>): Run {
    match out
    case Stop => s.(pc := Halted)
    case Go(pg, Done) => Finish(pg, dropping)
    case Go(pg, PageIn) => Run(pg, Paging, dropping)
    case Go(pg, Unlock) => Run(pg, Unlocking, dropping)
  }

  function Step(s: Run, ev: Event): Run
    requires Enabled(s, ev)
  {
    match ev
    case Request(c, write) => Continue(s, DataRequest(s.page, c, write), None)
    case Completed(c) => Continue(s, LockCompleted(s.page, c), None)
    case AskUnlock(c) => Continue(s, DataUnlock(s.page, c), None)
    case Return(c, data, dirty, kernelCopy) =>
      var out := DataReturn(s.page, c, data, dirty, kernelCopy);
      if out.Go? && dirty then Run(out.page, Writing(data, kernelCopy), None) else Continue(s, out, None)
    case Dropped(c) => Continue(s, DropLocks(s.page, c), Some(c))
    case ReadDone(err, data, writeLock) =>
      // send_error_to_WAITLIST accepts an empty list, service_WAITLIST does not
      if s.page.entry.wait == [] then
        (if err == KERN_SUCCESS then s.(pc := Thrown)
          else Finish(s.page.(entry := s.page.entry.(error := err)), s.dropping))
      else Finish(EndPageIn(s.page, err, data, writeLock), s.dropping)
    case UnlockDone(err) =>
      if s.page.entry.wait == [] then s.(pc := Thrown) else Finish(FinalizeUnlock(s.page, err), s.dropping)
    case WriteDone(err) =>
      Continue(s, EndWrite(s.page, err, s.pc.data, s.pc.kernelCopy, true), None)
    case Locked(cs, keep, flush, reply) => s.(page := ExternalLock(s.page, cs, keep, flush, reply))
  }

  /** `evs` can happen, one after the other, from the state `start`. */
  predicate Valid(start: Run, evs: seq<Event>)
    decreases |evs|, 0
  {
    evs == [] || (Valid(start, evs[..|evs| - 1]) && Enabled(Exec(start, evs[..|evs| - 1]), evs[|evs| - 1]))
  }

  /** The state that the events `evs` lead to. */
  function Exec(start: Run, evs: seq<Event>): Run
    requires Valid(start, evs)
    decreases |evs|, 1
  {
    if evs == [] then start else Step(Exec(start, evs[..|evs| - 1]), evs[|evs| - 1])
  }

  /** Facts about prefixes, kept apart from runs. */
  lemma PrefixOfPrefix(evs: seq<Event>, k: nat)
    requires k < |evs|
    ensures evs[..|evs| - 1][..k] == evs[..k]
  {
  }

  lemma PrefixAndLast(evs: seq<Event>)
    requires evs != []
    ensures evs == evs[..|evs| - 1] + [evs[|evs| - 1]]
  {
  }

  // ----- effects of the primitives

  function Clients(ws: seq<Waiter>): set<Client> {
    set w | w in ws :: w.client
  }

  lemma ClientsCons(ws: seq<Waiter>)
    requires ws != []
    ensures Clients(ws) == {ws[0].client} + Clients(ws[1..])
  {
    forall c | c in Clients(ws) ensures c in {ws[0].client} + Clients(ws[1..]) {
      var w :| w in ws && w.client == c;
      assert w == ws[0] || w in ws[1..];
    }
  }

  lemma {:induction false} SupplyAllEffect(pg: Page, ws: seq<Waiter>, data: Content, dealloc: bool, readOnly: bool)
    ensures var r := SupplyAll(pg, ws, data, dealloc, readOnly);
            && r.entry == pg.entry.(access := pg.entry.access + Clients(ws))
            && r.locks == pg.locks && r.nextError == pg.nextError
            && r.hist.asked == pg.hist.asked
            && r.hist.writers == pg.hist.writers + if readOnly then {} else Clients(ws)
    decreases |ws|
  {
    if ws == [] {
      assert pg.entry.access + {} == pg.entry.access;
    } else {
      ClientsCons(ws);
      var one := SupplyOne(pg, ws[0], data, dealloc && |ws| == 1, readOnly);
      SupplyAllEffect(one, ws[1..], data, dealloc, readOnly);
      assert one.entry.access + Clients(ws[1..]) == pg.entry.access + Clients(ws);
    }
  }

  lemma {:induction false} ErrorAllEffect(pg: Page, ws: seq<Waiter>)
    ensures ErrorAll(pg, ws).entry == pg.entry
    ensures ErrorAll(pg, ws).hist.writers == pg.hist.writers
    ensures ErrorAll(pg, ws).hist.asked == pg.hist.asked
    decreases |ws|
  {
    if ws != [] {
      ErrorAllEffect(ErrorOne(pg, ws[0]), ws[1..]);
    }
  }

  /** What service_WAITLIST leaves in the entry and in the lock table. */
  lemma ServiceEffect(pg: Page, data: Content, allowWrite: bool, dealloc: bool)
    requires pg.entry.wait != []
    ensures var ws := pg.entry.wait;
            var n := BatchSize(ws, allowWrite);
            var write := WriteBatch(ws, allowWrite);
            var r := Service(pg, data, allowWrite, dealloc);
            && r.entry == pg.entry.(access := pg.entry.access + Clients(ws[..n]), wait := ws[n..],
                 writeGranted := write)
            && r.hist.writers == pg.hist.writers + (if write then Clients(ws[..n]) else {})
            && r.hist.asked == pg.hist.asked
            && r.nextError == pg.nextError
            && (forall c :: Internal(r, c) <==> Internal(pg, c) || (ws[n..] != [] && c in r.entry.access))
  {
    var ws := pg.entry.wait;
    var n := BatchSize(ws, allowWrite);
    SupplyAllEffect(pg, ws[..n], data, dealloc, !WriteBatch(ws, allowWrite));
  }

  // ----- revocation in progress, and no exception, without any hypothesis on the clients

  /** If anyone waits, every client that has access has been asked to flush, and has not answered. */
  ghost predicate Revoking(pg: Page) {
    pg.entry.wait != [] ==> forall c :: c in pg.entry.access ==> Internal(pg, c)
  }

  ghost predicate Orderly(s: Run) {
    match s.pc
    case Idle => Revoking(s.page) && !s.page.entry.pagingOut && s.dropping.None?
    case Paging => s.page.entry.wait != [] && !s.page.entry.pagingOut
    case Unlocking => s.page.entry.wait != [] && s.page.entry.access == {s.page.entry.wait[0].client} &&
      !s.page.entry.pagingOut
    case Writing(_, _) => Revoking(s.page) && s.page.entry.pagingOut && s.dropping.None?
    case Halted => true
    case Thrown => false
  }

  lemma SoleMember(cs: set<Client>, c: Client)
    requires |cs| == 1 && c in cs
    ensures cs == {c}
  {
    assert |cs - {c}| == 0;
  }

  lemma OrderlyFinish(pg: Page, dropping: Option<Client>)
    requires Revoking(pg) && !pg.entry.pagingOut
    ensures Orderly(Finish(pg, dropping))
  {
  }

  lemma OrderlyComplete(s: Run, pg: Page, c: Client, dropping: Option<Client>)
    requires !pg.entry.pagingOut
    requires pg.entry.wait != [] ==> forall x :: x in pg.entry.access && x != c ==> Internal(pg, x)
    ensures Orderly(Continue(s, CompleteInternal(pg, c), dropping))
  {
    if pg.entry.writeGranted {
    } else if c in pg.entry.access && pg.entry.wait != [] {
      var left := Evict(pg, c);
      if left.entry.access == {} {
        ErrorAllEffect(left, left.entry.wait);
        OrderlyFinish(SendError(left), dropping);
      } else if |left.entry.access| == 1 && left.entry.wait[0].client in left.entry.access {
        SoleMember(left.entry.access, left.entry.wait[0].client);
      } else {
        OrderlyFinish(left, dropping);
      }
    } else {
      OrderlyFinish(pg, dropping);
    }
  }

  lemma OrderlyRequest(s: Run, c: Client, write: bool)
    requires Orderly(s) && s.pc.Idle?
    ensures Orderly(Step(s, Request(c, write)))
  {
    var pg := s.page;
    if FirstError(pg.nextError, c) < |pg.nextError| {
      OrderlyFinish(DataRequest(pg, c, write).page, None);
    } else if c in pg.entry.access && pg.entry.wait != [] {
      OrderlyComplete(s, Enqueue(pg, c, write), c, None);
    } else if DataRequest(pg, c, write).op.Done? {
      OrderlyFinish(DataRequest(pg, c, write).page, None);
    }
  }

  /** data_request of a client that is not, or no longer, on ACCESSLIST. */
  function Joined(left: Page, c: Client, write: bool): Outcome {
    if left.entry.wait != [] then Go(Enqueue(left, c, write), Done)
    else if left.entry.writeGranted || (write && left.entry.access != {}) then
      Go(FlushAll(Enqueue(left, c, write), left.entry.access), Done)
    else Go(Enqueue(if left.entry.invalid then Refuse(left, c, left.entry.error) else left, c, write), PageIn)
  }

  lemma JoinLists(left: Page, c: Client, write: bool)
    ensures var out := Joined(left, c, write);
            && out.Go? && out.page.entry.wait == left.entry.wait + [Waiter(c, write)]
            && out.page.entry.access == left.entry.access && out.page.entry.writeGranted == left.entry.writeGranted
            && out.page.hist.writers == left.hist.writers
            && out.op == (if left.entry.wait != [] || left.entry.writeGranted ||
                 (write && left.entry.access != {}) then Done
                          else PageIn)
  {
  }

  /** What a data_request does to the two lists, unless it goes the way of a completed lock. */
  lemma RequestLists(s: Run, c: Client, write: bool)
    requires Orderly(s) && s.pc.Idle?
    ensures var pg, t := s.page, Step(s, Request(c, write));
            if FirstError(pg.nextError, c) < |pg.nextError| then
              t.pc.Idle? && t.page.entry == pg.entry && t.page.hist.writers == pg.hist.writers
            else if c in pg.entry.access && pg.entry.wait != [] then
              t == Continue(s, CompleteInternal(Enqueue(pg, c, write), c), None)
            else
              && t.page.entry.wait == pg.entry.wait + [Waiter(c, write)]
              && t.page.entry.access == pg.entry.access - {c}
              && t.page.entry.writeGranted == (pg.entry.writeGranted && c !in pg.entry.access)
              && t.page.hist.writers == (if c in pg.entry.access then pg.hist.writers - {c} else pg.hist.writers)
              && t.pc == (if pg.entry.wait != [] || t.page.entry.writeGranted || (write && t.page.entry.access != {})
                          then Idle else Paging)
  {
    var pg := s.page;
    if FirstError(pg.nextError, c) == |pg.nextError| && !(c in pg.entry.access && pg.entry.wait != []) {
      var left := DropAccess(pg, c);
      assert c !in pg.entry.access ==> pg.entry.access - {c} == pg.entry.access;
      assert DataRequest(pg, c, write) == Joined(left, c, write);
      JoinLists(left, c, write);
      ContinueLists(s, Joined(left, c, write));
    }
  }

  lemma ContinueLists(s: Run, out: Outcome)
    requires out.Go?
    ensures var t := Continue(s, out, None);
            t.page == out.page && t.pc == if out.op.Done? then Idle else if out.op.PageIn? then Paging else Unlocking
  {
  }

  lemma OrderlyCompleted(s: Run, c: Client)
    requires Orderly(s) && s.pc.Idle?
    ensures Orderly(Step(s, Completed(c)))
  {
    if Count(s.page, c) == 1 && s.page.locks[c].internal {
      OrderlyComplete(s, s.page.(locks := s.page.locks - {c}), c, None);
    }
  }

  lemma OrderlyUnlock(s: Run, c: Client)
    requires Orderly(s) && s.pc.Idle?
    ensures Orderly(Step(s, AskUnlock(c)))
  {
    var out := DataUnlock(s.page, c);
    if out.Go? && out.op.Done? {
      OrderlyFinish(out.page, None);
    } else if out.Go? {
      assert |s.page.entry.access| != 0;
      SoleMember(s.page.entry.access, c);
      assert out.page.entry.wait == [Waiter(c, true)];
    }
  }

  lemma OrderlyReturn(s: Run, c: Client, data: Content, dirty: bool, kernelCopy: bool)
    requires Orderly(s) && s.pc.Idle?
    ensures Orderly(Step(s, Return(c, data, dirty, kernelCopy)))
  {
    var left := if kernelCopy || c == MACH_PORT_DEAD then s.page else Evict(s.page, c);
    var e := left.entry;
    if !kernelCopy && e.wait != [] && e.access == {} {
      ServiceEffect(left, data, true, false);
    } else if !kernelCopy && e.wait != [] && |e.access| == 1 && e.wait[0].client in e.access {
      SoleMember(e.access, e.wait[0].client);
    }
  }

  lemma OrderlyEnd(s: Run, ev: Event)
    requires Orderly(s) && Enabled(s, ev)
    requires ev.ReadDone? || ev.UnlockDone? || ev.WriteDone?
    ensures Orderly(Step(s, ev))
  {
    var pg := s.page;
    match ev
    case ReadDone(err, data, writeLock) =>
      var noted := pg.(entry := pg.entry.(error := err));
      if err == KERN_SUCCESS {
        ServiceEffect(noted, data, !writeLock, true);
      } else {
        ErrorAllEffect(noted, noted.entry.wait);
      }
      OrderlyFinish(EndPageIn(pg, err, data, writeLock), s.dropping);
    case UnlockDone(err) =>
      OrderlyFinish(FinalizeUnlock(pg, err), s.dropping);
    case WriteDone(err) =>
      var noted := if err == KERN_SUCCESS then pg.(entry := pg.entry.(invalid := false))
                   else pg.(entry := pg.entry.(invalid := true, error := err));
      var out := noted.(entry := noted.entry.(pagingOut := false));
      if out.entry.wait != [] && !s.pc.kernelCopy {
        ServiceEffect(out, s.pc.data, true, false);
      }
  }

  lemma OrderlyStep(s: Run, ev: Event)
    requires Orderly(s) && Enabled(s, ev)
    ensures Orderly(Step(s, ev))
  {
    match ev
    case Request(c, write) => OrderlyRequest(s, c, write);
    case Completed(c) => OrderlyCompleted(s, c);
    case AskUnlock(c) => OrderlyUnlock(s, c);
    case Return(c, data, dirty, kernelCopy) => OrderlyReturn(s, c, data, dirty, kernelCopy);
    case Dropped(c) =>
      if Internal(s.page, c) {
        OrderlyComplete(s, s.page.(locks := s.page.locks - {c}), c, Some(c));
      }
    case Locked(_, _, _, _) =>
    case _ => OrderlyEnd(s, ev);
  }

  /** The theorem of libpager/NOTES:947 that waiting implies flushing, in the form that is true of every
      client on ACCESSLIST; and no handler ever meets an empty WAITLIST it cannot handle, although the
      lock is dropped around the backing-store calls. */
  lemma {:induction false} RevocationInProgress(evs: seq<Event>)
    requires Valid(Init, evs)
    ensures Orderly(Exec(Init, evs))
    ensures !Exec(Init, evs).pc.Thrown?
    ensures Exec(Init, evs).pc.Idle? ==> Revoking(Exec(Init, evs).page)
    decreases |evs|
  {
    if evs != [] {
      RevocationInProgress(evs[..|evs| - 1]);
      OrderlyStep(Exec(Init, evs[..|evs| - 1]), evs[|evs| - 1]);
    }
  }

  /** Every unlock request is on its way to an answer (libpager/NOTES:1080): in every run, after a data_unlock
      that does not halt, its client waits to write, or it has been asked to flush the page, after which it
      has to ask again anyway. */
  lemma UnlockIsNotForgotten(evs: seq<Event>, c: Client)
    requires Valid(Init, evs) && Enabled(Exec(Init, evs), AskUnlock(c))
    ensures var t := Step(Exec(Init, evs), AskUnlock(c));
            t.pc.Halted? || Waiter(c, true) in t.page.entry.wait || Internal(t.page, c)
  {
    RevocationInProgress(evs);
    var s := Exec(Init, evs);
    var t := Step(s, AskUnlock(c));
    if !AnyWriter(s.page.entry.wait) && !t.pc.Halted? {
      assert t.page.entry.wait[|s.page.entry.wait|] == Waiter(c, true);
    }
  }

  // ----- single writer

  /** A client with write access is the only one with access, and the page is flagged so. */
  ghost predicate SingleWriter(pg: Page) {
    && (pg.hist.writers != {} ==>
          pg.entry.writeGranted && pg.entry.access == pg.hist.writers && |pg.hist.writers| == 1)
    && (pg.entry.writeGranted ==> |pg.entry.access| <= 1)
  }

  ghost predicate Exclusive(s: Run) {
    var e := s.page.entry;
    match s.pc
    case Idle => SingleWriter(s.page)
    case Writing(_, _) => SingleWriter(s.page)
    case Paging => && s.page.hist.writers == {} && !e.writeGranted
                   && (e.access == {} || (|e.wait| == 1 && !e.wait[0].write && e.wait[0].client !in e.access))
    case Unlocking => s.page.hist.writers == {} && !e.writeGranted
    case _ => true
  }

  /** The second call of service_WAITLIST for one dirty return finds nobody with access. */
  ghost predicate Guarded(s: Run, ev: Event) {
    ev.WriteDone? && s.pc.Writing? && !s.pc.kernelCopy && s.page.entry.wait != [] ==> s.page.entry.access == {}
  }

  ghost predicate GuardedRun(evs: seq<Event>)
    decreases |evs|
  {
    && Valid(Init, evs)
    && (evs != [] ==> GuardedRun(evs[..|evs| - 1]) && Guarded(Exec(Init, evs[..|evs| - 1]), evs[|evs| - 1]))
  }

  /** service_WAITLIST keeps writers apart if it starts with nobody on ACCESSLIST, or serves readers only. */
  lemma ExclusiveService(pg: Page, data: Content, allowWrite: bool, dealloc: bool)
    requires pg.entry.wait != [] && pg.hist.writers == {}
    requires pg.entry.access == {} || !WriteBatch(pg.entry.wait, allowWrite)
    ensures SingleWriter(Service(pg, data, allowWrite, dealloc))
  {
    ServiceEffect(pg, data, allowWrite, dealloc);
    var ws := pg.entry.wait;
    if WriteBatch(ws, allowWrite) {
      assert ws[..1] == [ws[0]];
      assert Clients(ws[..1]) == {ws[0].client};
    }
  }

  lemma ExclusiveFinish(pg: Page, dropping: Option<Client>)
    requires SingleWriter(pg)
    ensures Exclusive(Finish(pg, dropping))
  {
    if dropping.Some? && dropping.value in pg.entry.access {
      var c := dropping.value;
      if pg.hist.writers != {} {
        SoleMember(pg.entry.access, c);
      }
    }
  }

  lemma ExclusiveComplete(s: Run, pg: Page, c: Client, dropping: Option<Client>)
    requires SingleWriter(pg)
    ensures Exclusive(Continue(s, CompleteInternal(pg, c), dropping))
  {
    if pg.entry.writeGranted {
    } else if c in pg.entry.access && pg.entry.wait != [] {
      var left := Evict(pg, c);
      ErrorAllEffect(left, left.entry.wait);
      if left.entry.access == {} {
        ExclusiveFinish(SendError(left), dropping);
      } else if CompleteInternal(pg, c).op.Done? {
        ExclusiveFinish(left, dropping);
      }
    } else {
      ExclusiveFinish(pg, dropping);
    }
  }

  lemma ExclusiveRequest(s: Run, c: Client, write: bool)
    requires Orderly(s) && Exclusive(s) && s.pc.Idle?
    ensures Exclusive(Step(s, Request(c, write)))
  {
    var pg := s.page;
    if FirstError(pg.nextError, c) < |pg.nextError| {
      ExclusiveFinish(DataRequest(pg, c, write).page, None);
    } else if c in pg.entry.access && pg.entry.wait != [] {
      ExclusiveComplete(s, Enqueue(pg, c, write), c, None);
    } else {
      ExclusiveFinish(pg, Some(c));
      var left := DropAccess(pg, c);
      assert SingleWriter(left);
      if DataRequest(pg, c, write).op.Done? {
        ExclusiveFinish(DataRequest(pg, c, write).page, None);
      }
    }
  }

  lemma EvictExclusive(pg: Page, c: Client)
    requires SingleWriter(pg)
    ensures SingleWriter(Evict(pg, c)) && (Evict(pg, c).entry.access == {} ==> Evict(pg, c).hist.writers == {})
  {
    var left := Evict(pg, c);
    if left.hist.writers != {} {
      assert left.entry.access == pg.entry.access - {c} == left.hist.writers;
      assert left.hist.writers == pg.hist.writers;
    }
    assert left.entry.access <= pg.entry.access;
    assert |left.entry.access| <= |pg.entry.access|;
  }

  /** A data_return either serves the waiting clients or leaves the lists as they are. */
  lemma ReturnShape(s: Run, c: Client, data: Content, dirty: bool, kernelCopy: bool)
    requires s.pc.Idle?
    ensures var t := Step(s, Return(c, data, dirty, kernelCopy));
            var left := if kernelCopy || c == MACH_PORT_DEAD then s.page else Evict(s.page, c);
            || t.pc.Halted?
            || (&& !kernelCopy && left.entry.access == {} && left.entry.wait != [] && (t.pc.Idle? || t.pc.Writing?)
                && var r := Service(left, data, true, false);
                   t.page == r.(entry := r.entry.(pagingOut := dirty || r.entry.pagingOut)))
            || (&& t.page.entry.access == left.entry.access && t.page.entry.wait == left.entry.wait
                && t.page.entry.writeGranted == left.entry.writeGranted
                && t.page.hist == left.hist && t.page.locks == left.locks && t.page.box == left.box
                && (t.pc.Idle? || t.pc.Writing? || (t.pc.Unlocking? && !left.entry.writeGranted)))
  {
    if !dirty && !kernelCopy {
      var left := if c == MACH_PORT_DEAD then s.page else Evict(s.page, c);
      if left.entry.access == {} && left.entry.wait != [] {
        var r := Service(left, data, true, false);
        assert r == r.(entry := r.entry.(pagingOut := r.entry.pagingOut));
      }
    }
  }

  /** The two lists, and who may write, are the same. */
  ghost predicate SameLists(pg: Page, q: Page) {
    && pg.entry.access == q.entry.access && pg.entry.wait == q.entry.wait
    && pg.entry.writeGranted == q.entry.writeGranted && pg.hist.writers == q.hist.writers
  }

  /** What a data_return does to the two lists: it serves when nobody has the page any more. */
  lemma ReturnLists(s: Run, c: Client, data: Content, dirty: bool, kernelCopy: bool)
    requires s.pc.Idle?
    ensures var t := Step(s, Return(c, data, dirty, kernelCopy));
            var left := if kernelCopy || c == MACH_PORT_DEAD then s.page else Evict(s.page, c);
            if t.pc.Halted? then t.page == s.page
            else if !kernelCopy && left.entry.access == {} && left.entry.wait != []
            then SameLists(t.page, Service(left, data, true, false))
            else SameLists(t.page, left)
  {
    ReturnShape(s, c, data, dirty, kernelCopy);
    ReturnServes(s, c, data, dirty, kernelCopy);
  }

  /** When nobody has the page any more, and somebody waits, a return serves. */
  lemma ReturnServes(s: Run, c: Client, data: Content, dirty: bool, kernelCopy: bool)
    requires s.pc.Idle?
    ensures var t := Step(s, Return(c, data, dirty, kernelCopy));
            var left := if kernelCopy || c == MACH_PORT_DEAD then s.page else Evict(s.page, c);
            && (t.pc.Halted? ==> t.page == s.page)
            && (!kernelCopy && left.entry.access == {} && left.entry.wait != [] ==>
                  SameLists(t.page, Service(left, data, true, false)))
  {
    var left := if kernelCopy || c == MACH_PORT_DEAD then s.page else Evict(s.page, c);
    if !kernelCopy && left.entry.access == {} && left.entry.wait != [] {
      var r := Service(left, data, true, false);
      var q := if dirty then r.(entry := r.entry.(pagingOut := true)) else r;
      assert DataReturn(s.page, c, data, dirty, kernelCopy) == Go(q, Done);
      ServedLists(s, q, r, data, dirty, kernelCopy);
    }
  }

  lemma ServedLists(s: Run, q: Page, r: Page, data: Content, dirty: bool, kernelCopy: bool)
    requires q.entry.wait == r.entry.wait && q.entry.access == r.entry.access && q.hist == r.hist
    requires q.entry.writeGranted == r.entry.writeGranted
    ensures SameLists(Continue(s, Go(q, Done), None).page, r)
    ensures SameLists(Run(q, Writing(data, kernelCopy), None).page, r)
  {
  }

  lemma ExclusiveReturn(s: Run, c: Client, data: Content, dirty: bool, kernelCopy: bool)
    requires Orderly(s) && Exclusive(s) && s.pc.Idle?
    ensures Exclusive(Step(s, Return(c, data, dirty, kernelCopy)))
  {
    var left := if kernelCopy || c == MACH_PORT_DEAD then s.page else Evict(s.page, c);
    EvictExclusive(s.page, c);
    ReturnShape(s, c, data, dirty, kernelCopy);
    ExclusiveLeft(left, Step(s, Return(c, data, dirty, kernelCopy)), data, dirty, kernelCopy);
  }

  lemma ExclusiveLeft(left: Page, t: Run, data: Content, dirty: bool, kernelCopy: bool)
    requires SingleWriter(left)
    requires || t.pc.Halted?
             || (&& left.entry.access == {} && left.entry.wait != [] && (t.pc.Idle? || t.pc.Writing?)
                 && var r := Service(left, data, true, false);
                    t.page == r.(entry := r.entry.(pagingOut := dirty || r.entry.pagingOut)))
             || (&& t.page.entry.access == left.entry.access && t.page.entry.writeGranted == left.entry.writeGranted
                 && t.page.hist == left.hist && (t.pc.Idle? || t.pc.Writing? ||
                      (t.pc.Unlocking? && !left.entry.writeGranted)))
    ensures Exclusive(t)
  {
    if left.entry.access == {} && left.entry.wait != [] {
      ExclusiveService(left, data, true, false);
    }
  }

  lemma ExclusiveEnd(s: Run, ev: Event)
    requires Orderly(s) && Exclusive(s) && Enabled(s, ev) && Guarded(s, ev)
    requires ev.ReadDone? || ev.UnlockDone? || ev.WriteDone?
    ensures Exclusive(Step(s, ev))
  {
    var pg := s.page;
    match ev
    case ReadDone(err, data, writeLock) =>
      var noted := pg.(entry := pg.entry.(error := err));
      if err == KERN_SUCCESS {
        ExclusiveService(noted, data, !writeLock, true);
      } else {
        ErrorAllEffect(noted, noted.entry.wait);
      }
      ExclusiveFinish(EndPageIn(pg, err, data, writeLock), s.dropping);
    case UnlockDone(err) =>
      assert {pg.entry.wait[0].client} + {} == {pg.entry.wait[0].client};
      ExclusiveFinish(FinalizeUnlock(pg, err), s.dropping);
    case WriteDone(err) =>
      var noted := if err == KERN_SUCCESS then pg.(entry := pg.entry.(invalid := false))
                   else pg.(entry := pg.entry.(invalid := true, error := err));
      var out := noted.(entry := noted.entry.(pagingOut := false));
      if out.entry.wait != [] && !s.pc.kernelCopy {
        ExclusiveService(out, s.pc.data, true, false);
      }
  }

  lemma ExclusiveStep(s: Run, ev: Event)
    requires Orderly(s) && Exclusive(s) && Enabled(s, ev) && Guarded(s, ev)
    ensures Exclusive(Step(s, ev))
  {
    match ev
    case Request(c, write) => ExclusiveRequest(s, c, write);
    case Completed(c) =>
      if Count(s.page, c) == 1 && s.page.locks[c].internal {
        ExclusiveComplete(s, s.page.(locks := s.page.locks - {c}), c, None);
      }
    case AskUnlock(c) =>
    case Return(c, data, dirty, kernelCopy) => ExclusiveReturn(s, c, data, dirty, kernelCopy);
    case Dropped(c) =>
      var closed := s.page.(locks := s.page.locks - {c});
      if Internal(s.page, c) {
        ExclusiveComplete(s, closed, c, Some(c));
      } else {
        ExclusiveFinish(closed, Some(c));
      }
    case Locked(_, _, _, _) =>
    case _ => ExclusiveEnd(s, ev);
  }

  /** Only one client at a time has write access, and then no other client has any (libpager/NOTES:1076). */
  lemma {:induction false} WriteAccessIsExclusive(evs: seq<Event>)
    requires GuardedRun(evs)
    ensures Exclusive(Exec(Init, evs))
    ensures Exec(Init, evs).pc.Idle? ==> SingleWriter(Exec(Init, evs).page)
    decreases |evs|
  {
    if evs != [] {
      var before := evs[..|evs| - 1];
      WriteAccessIsExclusive(before);
      RevocationInProgress(before);
      ExclusiveStep(Exec(Init, before), evs[|evs| - 1]);
    }
  }
}
