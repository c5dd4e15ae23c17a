/**
The theorem of libpager/NOTES:940, that when only readers have access and only readers wait, a page-in is
in progress: it fails, and these are exactly the events that make it fail.
*/
module ReadersWait {
  import opened PageSpec
  import opened PagerRun
  import opened PagerLimits

  // ----- who may write has access

  /** The clients given write access, and not since removed, are on ACCESSLIST. */
  ghost predicate WritersHaveAccess(s: Run) {
    s.pc.Halted? || s.page.hist.writers <= s.page.entry.access
  }

  lemma ServiceWriters(pg: Page, data: Content, allowWrite: bool, dealloc: bool)
    requires pg.entry.wait != [] && pg.hist.writers <= pg.entry.access
    ensures var r := Service(pg, data, allowWrite, dealloc); r.hist.writers <= r.entry.access
  {
    ServiceEffect(pg, data, allowWrite, dealloc);
  }

  lemma CompleteWriters(s: Run, pg: Page, c: Client, dropping: Option<Client>)
    requires pg.hist.writers <= pg.entry.access
    ensures WritersHaveAccess(Continue(s, CompleteInternal(pg, c), dropping))
  {
    ErrorAllEffect(Evict(pg, c), pg.entry.wait);
  }

  lemma RequestWriters(s: Run, c: Client, write: bool)
    requires Orderly(s) && WritersHaveAccess(s) && s.pc.Idle?
    ensures WritersHaveAccess(Step(s, Request(c, write)))
  {
    RequestLists(s, c, write);
    if c in s.page.entry.access && s.page.entry.wait != [] {
      CompleteWriters(s, Enqueue(s.page, c, write), c, None);
    }
  }

  lemma ReturnWriters(s: Run, c: Client, data: Content, dirty: bool, kernelCopy: bool)
    requires WritersHaveAccess(s) && s.pc.Idle?
    ensures WritersHaveAccess(Step(s, Return(c, data, dirty, kernelCopy)))
  {
    var left := if kernelCopy || c == MACH_PORT_DEAD then s.page else Evict(s.page, c);
    ReturnLists(s, c, data, dirty, kernelCopy);
    if left.entry.wait != [] {
      ServiceWriters(left, data, true, false);
    }
  }

  lemma FinishWriters(pg: Page, dropping: Option<Client>)
    requires pg.hist.writers <= pg.entry.access
    ensures WritersHaveAccess(Finish(pg, dropping))
  {
  }

  lemma EndWriters(s: Run, ev: Event)
    requires Orderly(s) && WritersHaveAccess(s) && Enabled(s, ev) && (ev.ReadDone? || ev.UnlockDone? || ev.WriteDone?)
    ensures WritersHaveAccess(Step(s, ev))
  {
    match ev
    case ReadDone(err, data, writeLock) =>
      var noted := s.page.(entry := s.page.entry.(error := err));
      if err == KERN_SUCCESS {
        ServiceWriters(noted, data, !writeLock, true);
      } else {
        ErrorAllEffect(noted, noted.entry.wait);
      }
      FinishWriters(EndPageIn(s.page, err, data, writeLock), s.dropping);
    case UnlockDone(err) => FinishWriters(FinalizeUnlock(s.page, err), s.dropping);
    case WriteDone(err) => WrittenWriters(s, err);
  }

  lemma WrittenWriters(s: Run, err: int)
    requires WritersHaveAccess(s) && s.pc.Writing?
    ensures WritersHaveAccess(Step(s, WriteDone(err)))
  {
    var out := WrittenPage(s.page, err);
    if !s.pc.kernelCopy && out.entry.wait != [] {
      ServiceWriters(out, s.pc.data, true, false);
    }
  }

  lemma StepWriters(s: Run, ev: Event)
    requires Orderly(s) && WritersHaveAccess(s) && Enabled(s, ev)
    ensures WritersHaveAccess(Step(s, ev))
  {
    match ev
    case Request(c, write) => RequestWriters(s, c, write);
    case Completed(c) => CompleteWriters(s, s.page.(locks := s.page.locks - {c}), c, None);
    case Dropped(c) => CompleteWriters(s, s.page.(locks := s.page.locks - {c}), c, Some(c));
    case Return(c, data, dirty, kernelCopy) => ReturnWriters(s, c, data, dirty, kernelCopy);
    case AskUnlock(c) =>
    case Locked(cs, keep, flush, reply) =>
    case _ => EndWriters(s, ev);
  }

  lemma {:induction false} WritersAlwaysHaveAccess(evs: seq<Event>)
    requires Valid(Init, evs)
    ensures WritersHaveAccess(Exec(Init, evs))
    decreases |evs|
  {
    if evs == [] {
      assert Init.page.hist.writers == {};
    } else {
      var before := evs[..|evs| - 1];
      WritersAlwaysHaveAccess(before);
      RevocationInProgress(before);
      StepWriters(Exec(Init, before), evs[|evs| - 1]);
    }
  }

  // ----- readers that wait although no page-in is in progress

  predicate OnlyReaders(ws: seq<Waiter>) {
    ws != [] && !AnyWriter(ws)
  }

  /** Somebody waits, nobody waits or has access to write, and the pager is not paging in. */
  predicate ReadersStuck(s: Run) {
    (s.pc.Idle? || s.pc.Writing?) && OnlyReaders(s.page.entry.wait) && s.page.hist.writers == {}
  }

  /** Taking `c` off ACCESSLIST leaves readers there, with only readers waiting. */
  predicate LeavesReaders(pg: Page, c: Client) {
    OnlyReaders(pg.entry.wait) && pg.hist.writers == {c} && pg.entry.access - {c} != {}
  }

  /** Taking `c` off ACCESSLIST leaves the first waiter alone there, to be unlocked. */
  predicate UnlocksNext(pg: Page, c: Client) {
    FirstAlone(pg.entry.access - {c}, pg.entry.wait)
  }

  /** Exactly what makes the theorem fail.  A read request that finds the flag set and nobody with write
      access; a writer that shares the page with readers and leaves it to them, by a request, a completion,
      drop_client or a return; a page-in or an unlock for a writer whom drop_client takes away; and an
      unlock that fails.  In each case only readers wait on. */
  predicate Sticks(s: Run, ev: Event)
    requires Enabled(s, ev) && (s.pc.Paging? || s.pc.Unlocking? ==> s.page.entry.wait != [])
  {
    var pg, e := s.page, s.page.entry;
    match ev
    case Request(c, write) =>
      && FirstError(pg.nextError, c) == |pg.nextError| && !write
      && if c in e.access then !e.writeGranted && LeavesReaders(pg, c) && !UnlocksNext(pg, c)
         else e.wait == [] && e.writeGranted && pg.hist.writers == {}
    case Completed(c) =>
      Count(pg, c) == 1 && Internal(pg, c) && !e.writeGranted && LeavesReaders(pg, c) && !UnlocksNext(pg, c)
    case Dropped(c) => !e.writeGranted && LeavesReaders(pg, c) && !UnlocksNext(pg, c)
    case Return(c, _, _, kernelCopy) =>
      !kernelCopy && c != MACH_PORT_DEAD && LeavesReaders(pg, c) && (e.writeGranted || !UnlocksNext(pg, c))
    case ReadDone(err, _, writeLock) =>
      && err == KERN_SUCCESS && !writeLock && e.wait[0].write && OnlyReaders(e.wait[1..])
      && s.dropping == Some(e.wait[0].client) && pg.hist.writers <= {e.wait[0].client}
    case UnlockDone(err) =>
      && OnlyReaders(e.wait[1..])
      && (s.dropping == Some(e.wait[0].client) || (err != KERN_SUCCESS && pg.hist.writers == {}))
    case _ => false
  }

  lemma ServiceFlag(pg: Page, data: Content, allowWrite: bool, dealloc: bool)
    requires pg.entry.wait != []
    ensures var r := Service(pg, data, allowWrite, dealloc); r.entry.writeGranted ==> r.hist.writers != {}
  {
    ServiceEffect(pg, data, allowWrite, dealloc);
    var ws := pg.entry.wait;
    var batch := ws[..BatchSize(ws, allowWrite)];
    assert batch[0] in batch;
    assert ws[0].client in Clients(batch);
  }

  lemma AnyWriterMore(ws: seq<Waiter>, w: Waiter)
    ensures AnyWriter(ws + [w]) <==> AnyWriter(ws) || w.write
  {
    if AnyWriter(ws) {
      var i :| 0 <= i < |ws| && ws[i].write;
      assert (ws + [w])[i].write;
    }
    if w.write {
      assert (ws + [w])[|ws|].write;
    }
  }

  /** After a service, readers are not left with readers: behind a batch of readers comes a writer. */
  lemma NotAfterService(pg: Page, data: Content, allowWrite: bool, dealloc: bool)
    requires pg.entry.wait != []
    ensures var r := Service(pg, data, allowWrite, dealloc); !(OnlyReaders(r.entry.wait) && r.hist.writers == {})
  {
    ServiceEffect(pg, data, allowWrite, dealloc);
    ServiceFlag(pg, data, allowWrite, dealloc);
    var ws, r := pg.entry.wait, Service(pg, data, allowWrite, dealloc);
    var n := BatchSize(ws, allowWrite);
    if n < |ws| && !WriteBatch(ws, allowWrite) {
      assert ws[1..][n - 1] == ws[n];
      assert r.entry.wait[0].write;
    }
  }

  lemma StuckByRequest(s: Run, c: Client, write: bool)
    requires Orderly(s) && WritersHaveAccess(s) && s.pc.Idle? && !ReadersStuck(s)
    ensures ReadersStuck(Step(s, Request(c, write))) <==> Sticks(s, Request(c, write))
  {
    var pg := s.page;
    RequestLists(s, c, write);
    if FirstError(pg.nextError, c) == |pg.nextError| {
      AnyWriterMore(pg.entry.wait, Waiter(c, write));
      if c in pg.entry.access && pg.entry.wait != [] {
        var q := Enqueue(pg, c, write);
        assert q.entry.wait[0] == pg.entry.wait[0];
        StuckByEviction(s, q, c, None);
        SoleWriter(pg, c);
      } else {
        StuckByJoining(s, Step(s, Request(c, write)), c, write);
      }
    }
  }

  lemma StuckByJoining(s: Run, t: Run, c: Client, write: bool)
    requires s.pc.Idle? && !ReadersStuck(s)
    requires t.page.entry.wait == s.page.entry.wait + [Waiter(c, write)] &&
      (c in s.page.entry.access ==> s.page.entry.wait == [])
    requires AnyWriter(t.page.entry.wait) <==> AnyWriter(s.page.entry.wait) || write
    requires t.page.entry.access == s.page.entry.access - {c}
    requires t.page.entry.writeGranted == (s.page.entry.writeGranted && c !in s.page.entry.access)
    requires c !in s.page.entry.access ==> t.page.hist.writers == s.page.hist.writers
    requires t.pc == (if s.page.entry.wait != [] || t.page.entry.writeGranted || (write && t.page.entry.access != {})
                      then Idle else Paging)
    ensures ReadersStuck(t) <==>
            && !write && s.page.entry.wait == [] && s.page.entry.writeGranted
            && c !in s.page.entry.access && s.page.hist.writers == {}
  {
  }

  /** A writer that is not the only one leaves a writer. */
  lemma SoleWriter(pg: Page, c: Client)
    ensures pg.hist.writers - {c} == {} <==> pg.hist.writers == {} || pg.hist.writers == {c}
  {
    forall x | x in pg.hist.writers && x != c ensures x in pg.hist.writers - {c} {
    }
  }

  lemma EvictionOutcome(pg: Page, c: Client)
    requires c in pg.entry.access && pg.entry.wait != []
    ensures var out := CompleteInternal(pg, c);
            && (out.Go? ==> out.page.hist.writers == pg.hist.writers - {c} && c !in out.page.entry.access)
            && (out.Go? && out.op == Done && out.page.entry.wait != [] <==>
                !pg.entry.writeGranted && pg.entry.access - {c} != {} && !UnlocksNext(pg, c))
            && (out.Go? && out.op == Done && out.page.entry.wait != [] ==> out.page.entry.wait == pg.entry.wait)
  {
    var left := Evict(pg, c);
    ErrorAllEffect(left, left.entry.wait);
  }

  /** A client on ACCESSLIST loses access because it lost the page. */
  lemma StuckByEviction(s: Run, pg: Page, c: Client, dropping: Option<Client>)
    requires s.pc.Idle? && c in pg.entry.access && pg.entry.wait != [] && (dropping == None || dropping == Some(c))
    ensures ReadersStuck(Continue(s, CompleteInternal(pg, c), dropping)) <==>
            && !pg.entry.writeGranted && OnlyReaders(pg.entry.wait) && pg.hist.writers - {c} == {}
            && pg.entry.access - {c} != {} && !UnlocksNext(pg, c)
  {
    EvictionOutcome(pg, c);
    var out := CompleteInternal(pg, c);
    if out.Go? {
      assert DropAccess(out.page, c) == out.page;
    }
  }

  lemma StuckByClosing(s: Run, c: Client, dropping: Option<Client>)
    requires Orderly(s) && WritersHaveAccess(s) && s.pc.Idle? && !ReadersStuck(s)
    requires dropping == None || dropping == Some(c)
    ensures var closed := s.page.(locks := s.page.locks - {c});
            ReadersStuck(Continue(s, CompleteInternal(closed, c), dropping)) <==>
            !s.page.entry.writeGranted && LeavesReaders(s.page, c) && !UnlocksNext(s.page, c)
  {
    var closed := s.page.(locks := s.page.locks - {c});
    SoleWriter(s.page, c);
    if c in closed.entry.access && closed.entry.wait != [] {
      StuckByEviction(s, closed, c, dropping);
    } else {
      StuckUnchanged(s, closed, c, dropping);
    }
  }

  /** A client that is not on ACCESSLIST, or nobody waits: nothing becomes stuck. */
  lemma StuckUnchanged(s: Run, closed: Page, c: Client, dropping: Option<Client>)
    requires WritersHaveAccess(s) && s.pc.Idle? && !ReadersStuck(s)
    requires closed == s.page.(locks := closed.locks) && (c !in closed.entry.access || closed.entry.wait == [])
    requires dropping == None || dropping == Some(c)
    ensures !ReadersStuck(Continue(s, CompleteInternal(closed, c), dropping))
    ensures !ReadersStuck(Finish(closed, dropping)) && !LeavesReaders(s.page, c)
  {
  }

  lemma StuckByReply(s: Run, c: Client)
    requires Orderly(s) && WritersHaveAccess(s) && s.pc.Idle? && !ReadersStuck(s)
    ensures ReadersStuck(Step(s, Completed(c))) <==> Sticks(s, Completed(c))
  {
    StuckByClosing(s, c, None);
  }

  lemma StuckByDrop(s: Run, c: Client)
    requires Orderly(s) && WritersHaveAccess(s) && s.pc.Idle? && !ReadersStuck(s)
    ensures ReadersStuck(Step(s, Dropped(c))) <==> Sticks(s, Dropped(c))
  {
    if Internal(s.page, c) {
      StuckByClosing(s, c, Some(c));
    } else {
      StuckUnchanged(s, s.page.(locks := s.page.locks - {c}), c, Some(c));
    }
  }

  lemma StuckByReturn(s: Run, c: Client, data: Content, dirty: bool, kernelCopy: bool)
    requires WritersHaveAccess(s) && s.pc.Idle? && !ReadersStuck(s)
    ensures var ev := Return(c, data, dirty, kernelCopy); ReadersStuck(Step(s, ev)) <==> Sticks(s, ev)
  {
    var left := if kernelCopy || c == MACH_PORT_DEAD then s.page else Evict(s.page, c);
    SoleWriter(s.page, c);
    ReturnLists(s, c, data, dirty, kernelCopy);
    ReturnUnlocks(s, c, data, dirty, kernelCopy);
    if left.entry.access == {} && left.entry.wait != [] {
      NotAfterService(left, data, true, false);
    }
  }

  lemma ReturnOps(pg: Page, c: Client, data: Content, dirty: bool, kernelCopy: bool)
    ensures var out := DataReturn(pg, c, data, dirty, kernelCopy);
            var e := (if kernelCopy || c == MACH_PORT_DEAD then pg else Evict(pg, c)).entry;
            if !kernelCopy && !e.writeGranted && FirstAlone(e.access, e.wait)
            then out.Stop? || (!dirty && out.op == Unlock) else out.Go? && out.op == Done
  {
    var e := (if kernelCopy || c == MACH_PORT_DEAD then pg else Evict(pg, c)).entry;
    if FirstAlone(e.access, e.wait) {
      assert e.access != {};
    }
  }

  /** A data_return unlocks, or stops if it is dirty, exactly when the first waiter is left alone. */
  lemma ReturnUnlocks(s: Run, c: Client, data: Content, dirty: bool, kernelCopy: bool)
    requires s.pc.Idle?
    ensures var t := Step(s, Return(c, data, dirty, kernelCopy));
            var e := (if kernelCopy || c == MACH_PORT_DEAD then s.page else Evict(s.page, c)).entry;
            if !kernelCopy && !e.writeGranted && FirstAlone(e.access, e.wait)
            then t.pc.Halted? || t.pc.Unlocking? else t.pc.Idle? || t.pc.Writing?
  {
    ReturnOps(s.page, c, data, dirty, kernelCopy);
  }

  /** The end of a handler, when `w` was just given write access. */
  lemma StuckByFinish(pg: Page, dropping: Option<Client>, w: Client)
    requires w in pg.hist.writers && pg.hist.writers <= pg.entry.access
    ensures ReadersStuck(Finish(pg, dropping)) <==>
            OnlyReaders(pg.entry.wait) && dropping == Some(w) && pg.hist.writers <= {w}
  {
    if dropping.Some? {
      var d := dropping.value;
      assert d != w ==> w in pg.hist.writers - {d};
      assert pg.hist.writers - {w} == {} <==> pg.hist.writers <= {w};
    }
  }

  lemma StuckByRead(s: Run, err: int, data: Content, writeLock: bool)
    requires Orderly(s) && WritersHaveAccess(s) && s.pc.Paging?
    ensures var ev := ReadDone(err, data, writeLock); ReadersStuck(Step(s, ev)) <==> Sticks(s, ev)
  {
    var noted := s.page.(entry := s.page.entry.(error := err));
    ReadDoneStep(s, err, data, writeLock);
    if err != KERN_SUCCESS {
      ErrorAllEffect(noted, noted.entry.wait);
      assert SendError(noted).entry.wait == [];
    } else {
      StuckByService(noted, s.dropping, data, !writeLock);
    }
  }

  lemma StuckByService(pg: Page, dropping: Option<Client>, data: Content, allowWrite: bool)
    requires pg.entry.wait != [] && pg.hist.writers <= pg.entry.access
    ensures var ws := pg.entry.wait;
            ReadersStuck(Finish(Service(pg, data, allowWrite, true), dropping)) <==>
            && allowWrite && ws[0].write && OnlyReaders(ws[1..]) && dropping == Some(ws[0].client)
            && pg.hist.writers <= {ws[0].client}
  {
    ServiceEffect(pg, data, allowWrite, true);
    ServiceWriters(pg, data, allowWrite, true);
    StuckByServing(pg, Service(pg, data, allowWrite, true), dropping, allowWrite);
  }

  lemma StuckByServing(pg: Page, r: Page, dropping: Option<Client>, allowWrite: bool)
    requires var ws := pg.entry.wait;
             && ws != [] && r.entry.wait == ws[BatchSize(ws, allowWrite)..] && r.hist.writers <= r.entry.access
             && r.hist.writers == pg.hist.writers +
                  if WriteBatch(ws, allowWrite) then Clients(ws[..BatchSize(ws, allowWrite)]) else {}
    ensures var ws := pg.entry.wait;
            ReadersStuck(Finish(r, dropping)) <==>
            && allowWrite && ws[0].write && OnlyReaders(ws[1..]) && dropping == Some(ws[0].client)
            && pg.hist.writers <= {ws[0].client}
  {
    var ws := pg.entry.wait;
    var n := BatchSize(ws, allowWrite);
    if WriteBatch(ws, allowWrite) {
      assert ws[..1] == [ws[0]] && Clients([ws[0]]) == {ws[0].client};
      StuckByFinish(r, dropping, ws[0].client);
    } else if n < |ws| {
      assert ws[1..][n - 1] == ws[n];
      assert r.entry.wait[0].write;
    }
  }

  lemma StuckByUnlock(s: Run, err: int)
    requires Orderly(s) && WritersHaveAccess(s) && s.pc.Unlocking?
    ensures ReadersStuck(Step(s, UnlockDone(err))) <==> Sticks(s, UnlockDone(err))
  {
    var w := s.page.entry.wait[0].client;
    if err == KERN_SUCCESS {
      StuckByFinish(FinalizeUnlock(s.page, err), s.dropping, w);
    } else if s.dropping == Some(w) {
      assert s.page.hist.writers - {w} == {};
    }
  }

  lemma StuckByWrite(s: Run, err: int)
    requires Orderly(s) && s.pc.Writing? && !ReadersStuck(s)
    ensures !ReadersStuck(Step(s, WriteDone(err)))
  {
    var out := WrittenPage(s.page, err);
    if !s.pc.kernelCopy && out.entry.wait != [] {
      NotAfterService(out, s.pc.data, true, false);
    }
  }

  lemma StuckByAsking(s: Run, c: Client)
    requires s.pc.Idle? && !ReadersStuck(s)
    ensures !ReadersStuck(Step(s, AskUnlock(c)))
  {
    AnyWriterMore(s.page.entry.wait, Waiter(c, true));
  }

  /** An event makes the theorem fail if and only if it is one of these. */
  lemma ReadersStickExactly(s: Run, ev: Event)
    requires Orderly(s) && WritersHaveAccess(s) && Enabled(s, ev) && !ReadersStuck(s)
    ensures ReadersStuck(Step(s, ev)) <==> Sticks(s, ev)
  {
    match ev
    case Request(c, write) => StuckByRequest(s, c, write);
    case Completed(c) => StuckByReply(s, c);
    case AskUnlock(c) => StuckByAsking(s, c);
    case Return(c, data, dirty, kernelCopy) => StuckByReturn(s, c, data, dirty, kernelCopy);
    case Dropped(c) => StuckByDrop(s, c);
    case ReadDone(err, data, writeLock) => StuckByRead(s, err, data, writeLock);
    case UnlockDone(err) => StuckByUnlock(s, err);
    case WriteDone(err) => StuckByWrite(s, err);
    case Locked(cs, keep, flush, reply) =>
  }

  /** The `k`th event of the run made the theorem fail. */
  ghost predicate StuckBy(evs: seq<Event>, k: nat) {
    && k < |evs| && Valid(Init, evs[..k]) && Enabled(Exec(Init, evs[..k]), evs[k])
    && Orderly(Exec(Init, evs[..k])) && Sticks(Exec(Init, evs[..k]), evs[k])
  }

  lemma StuckByLast(evs: seq<Event>)
    requires evs != [] && Valid(Init, evs)
    requires !ReadersStuck(Exec(Init, evs[..|evs| - 1])) && ReadersStuck(Exec(Init, evs))
    ensures StuckBy(evs, |evs| - 1)
  {
    var before := evs[..|evs| - 1];
    RevocationInProgress(before);
    WritersAlwaysHaveAccess(before);
    ReadersStickExactly(Exec(Init, before), evs[|evs| - 1]);
  }

  /** So over every run the theorem holds as long as none of these has happened. */
  lemma {:induction false} StuckByWhat(evs: seq<Event>) returns (k: nat)
    requires Valid(Init, evs) && ReadersStuck(Exec(Init, evs))
    ensures StuckBy(evs, k)
    decreases |evs|
  {
    if evs == [] {
      assert false;
    } else if ReadersStuck(Exec(Init, evs[..|evs| - 1])) {
      k := StuckByWhat(evs[..|evs| - 1]);
      PrefixOfPrefix(evs, k);
    } else {
      StuckByLast(evs);
      k := |evs| - 1;
    }
  }

  // ----- runs

  /** The flag outlives the writer, and the next reader waits for nothing. */
  lemma ReadersWaitForNothing() returns (evs: seq<Event>)
    ensures GuardedRun(evs) && Exec(Init, evs).pc.Idle?
    ensures Exec(Init, evs).page.entry.wait == [Waiter(1, false)] && Exec(Init, evs).page.entry.access == {}
  {
    var before := FirstWriter();
    var e2, e3, e4 := Return(1, 8, true, false), WriteDone(KERN_SUCCESS), Request(1, false);
    var s2 := Exec(Init, before);
    var s3 := Step(s2, e2);
    assert s3.page.entry == Entry({}, [], true, true, false, KERN_SUCCESS);
    var s4 := Step(s3, e3);
    assert s4.page.entry == Entry({}, [], false, true, false, KERN_SUCCESS);
    Extend(Init, before, e2);
    Extend(Init, before + [e2], e3);
    Extend(Init, before + [e2] + [e3], e4);
    evs := before + [e2] + [e3] + [e4];
    assert evs[..|evs| - 1] == before + [e2] + [e3];
    assert (before + [e2] + [e3])[..|before| + 1] == before + [e2];
    assert (before + [e2])[..|before|] == before;
    assert GuardedRun(before + [e2]);
    assert GuardedRun(before + [e2] + [e3]);
  }

  /** An unlock fails with a reader behind it, and the flag is not set. */
  lemma FailedUnlockSticks() returns (evs: seq<Event>)
    ensures GuardedRun(evs) && ReadersStuck(Exec(Init, evs)) && !Exec(Init, evs).page.entry.writeGranted
  {
    evs := TwoReaders();
    UnlockAsked(Exec(Init, evs));
    evs := GuardedStep(evs, AskUnlock(1));
    UnlockWithReaderBehind(Exec(Init, evs));
    evs := GuardedStep(evs, Request(3, false));
    evs := GuardedStep(evs, Completed(2));
    FailTheUnlock(Exec(Init, evs));
    evs := GuardedStep(evs, UnlockDone(5));
  }

  ghost predicate Readers(s: Run, cs: set<Client>) {
    && s.pc.Idle? && s.dropping.None? && s.page.entry == Entry(cs, [], false, false, false, KERN_SUCCESS)
    && s.page.locks == map[] && s.page.nextError == [] && s.page.hist.writers == {}
  }

  lemma ReaderJoins(s: Run, cs: set<Client>, c: Client)
    requires Readers(s, cs) && c !in cs
    ensures var t := Step(s, Request(c, false));
            t.pc.Paging? && Readers(Step(t, ReadDone(KERN_SUCCESS, 7, false)), cs + {c})
  {
    var t := Step(s, Request(c, false));
    assert t.page.entry == Entry(cs, [Waiter(c, false)], false, false, false, KERN_SUCCESS);
    ServiceEffect(t.page, 7, true, true);
    SupplyAllEffect(t.page, t.page.entry.wait[..1], 7, true, true);
    assert t.page.entry.wait[..1] == [Waiter(c, false)];
    assert Clients([Waiter(c, false)]) == {c};
  }

  lemma TwoReaders() returns (evs: seq<Event>)
    ensures GuardedRun(evs) && Readers(Exec(Init, evs), {1, 2})
  {
    evs := [];
    ReaderJoins(Init, {}, 1);
    evs := GuardedStep(evs, Request(1, false));
    evs := GuardedStep(evs, ReadDone(KERN_SUCCESS, 7, false));
    assert {} + {1} == {1};
    ReaderJoins(Exec(Init, evs), {1}, 2);
    evs := GuardedStep(evs, Request(2, false));
    evs := GuardedStep(evs, ReadDone(KERN_SUCCESS, 7, false));
    assert {1} + {2} == {1, 2};
  }

  /** Client 1 asks to write: both are flushed. */
  lemma UnlockAsked(s: Run)
    requires Readers(s, {1, 2})
    ensures var t := Step(s, AskUnlock(1));
            && t.pc.Idle? && t.page.entry == Entry({1, 2}, [Waiter(1, true)], false, false, false, KERN_SUCCESS)
            && t.page.nextError == [] && t.page.hist.writers == {} && LockAt(t.page, 2)
  {
    assert |{1, 2}| == 2 && [] + [Waiter(1, true)] == [Waiter(1, true)];
    FlushAt(Enqueue(s.page, 1, true), {1, 2}, 2);
  }

  predicate LockAt(pg: Page, c: Client) {
    c in pg.locks && pg.locks[c] == LockRecord(1, true)
  }

  lemma UnlockWithReaderBehind(s: Run)
    requires s.pc.Idle? && s.page.entry == Entry({1, 2}, [Waiter(1, true)], false, false, false, KERN_SUCCESS)
    requires s.page.nextError == [] && s.page.hist.writers == {} && LockAt(s.page, 2)
    ensures var t := Step(s, Request(3, false));
            && t.pc.Idle?
            && var u := Step(t, Completed(2));
               && u.pc.Unlocking? && u.page.hist.writers == {} && !u.page.entry.writeGranted && u.dropping.None?
               && u.page.entry.wait == [Waiter(1, true), Waiter(3, false)]
  {
    assert [Waiter(1, true)] + [Waiter(3, false)] == [Waiter(1, true), Waiter(3, false)];
    assert {1, 2} - {2} == {1};
  }

  lemma FailTheUnlock(s: Run)
    requires s.pc.Unlocking? && s.page.hist.writers == {} && !s.page.entry.writeGranted && s.dropping.None?
    requires s.page.entry.wait == [Waiter(1, true), Waiter(3, false)]
    ensures ReadersStuck(Step(s, UnlockDone(5))) && !Step(s, UnlockDone(5)).page.entry.writeGranted
  {
  }

  /** A dirty return served twice over gives 3 write access beside the reader 2; when 3 returns the page, the
      readers 2 and 4 are left to themselves. */
  lemma WriterLeavesReaders() returns (evs: seq<Event>)
    ensures Valid(Init, evs) && ReadersStuck(Exec(Init, evs)) && Exec(Init, evs).page.entry.access == {2}
  {
    evs := QueueUp(Three, 3);
    assert Three[..3] == Three;
    var s := Exec(Init, evs);
    WriteAccessIsExclusive(evs);
    ServedTwice(s);
    var e0, e1, e2 := Return(1, 8, true, false), WriteDone(KERN_SUCCESS), Return(3, 9, false, false);
    LastWriterGoes(Step(Step(s, e0), e1));
    Extend(Init, evs, e0);
    Extend(Init, evs + [e0], e1);
    Extend(Init, evs + [e0] + [e1], e2);
    evs := evs + [e0] + [e1] + [e2];
  }

  const Three := [Waiter(2, false), Waiter(3, true), Waiter(4, false)]

  lemma ServedTwice(s: Run)
    requires Exclusive(s) && WriterAndWaiters(s, Three)
    ensures var t := Step(s, Return(1, 8, true, false));
            && t.pc == Writing(8, false)
            && var u := Step(t, WriteDone(KERN_SUCCESS));
               && u.pc.Idle? && u.page.entry.access == {2, 3} && u.page.hist.writers == {3}
               && u.page.entry.wait == [Waiter(4, false)] && u.page.entry.writeGranted
  {
    DirtyReturnFirst(s, 1, 8);
    assert ReaderRun(Three[1..]) == 0;
    assert Three[..1] == [Waiter(2, false)] && Clients([Waiter(2, false)]) == {2};
    var t := Step(s, Return(1, 8, true, false));
    ServedSecond(t);
  }

  lemma ServedSecond(t: Run)
    requires t.pc == Writing(8, false) && t.page.entry.access == {2} && t.page.hist.writers == {}
    requires t.page.entry.wait == Three[1..]
    ensures var u := Step(t, WriteDone(KERN_SUCCESS));
            && u.pc.Idle? && u.page.entry.access == {2, 3} && u.page.hist.writers == {3}
            && u.page.entry.wait == [Waiter(4, false)] && u.page.entry.writeGranted
  {
    WriteDoneStep(t, 8, KERN_SUCCESS);
    var out := WrittenPage(t.page, KERN_SUCCESS);
    ServiceEffect(out, 8, true, false);
    assert out.entry.wait[..1] == [Waiter(3, true)] && Clients([Waiter(3, true)]) == {3};
    assert out.entry.wait[1..] == [Waiter(4, false)];
    assert {2} + {3} == {2, 3} && {} + {3} == {3};
  }

  lemma LastWriterGoes(s: Run)
    requires s.pc.Idle? && s.page.entry.access == {2, 3} && s.page.hist.writers == {3}
    requires s.page.entry.wait == [Waiter(4, false)] && s.page.entry.writeGranted
    ensures var t := Step(s, Return(3, 9, false, false)); ReadersStuck(t) && t.page.entry.access == {2}
  {
    ReturnLists(s, 3, 9, false, false);
    ReturnUnlocks(s, 3, 9, false, false);
    assert {2, 3} - {3} == {2} && {3} - {3} == {};
  }
}
