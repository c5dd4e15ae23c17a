/**
The assertion of internal_lock_completed that nobody has write access (libpager/pagemap.cc:594): exactly
when a writer that gives the page up, as it was asked to, makes the pager stop on it.
*/
module Handover {
  import opened PageSpec
  import opened PagerRun
  import opened PagerLimits
  import opened Batch

  /** What the two services of a dirty return leave when the clients `ws` wait: the last batch served is a
      writer, and the client `a` that returned the page was not served and flushed again. */
  predicate LeavesWriter(ws: seq<Waiter>, a: Client)
    requires ws != []
  {
    var n := BatchSize(ws, true);
    if n == |ws| then ws[0].write
    else ws[n].write && a !in Clients(ws[..n]) && (n + 1 < |ws| ==> ws[n].client != a)
  }

  /** The same for the single service of a clean return. */
  predicate LeavesWriterAtOnce(ws: seq<Waiter>, a: Client)
    requires ws != []
  {
    ws[0].write && (|ws| > 1 ==> ws[0].client != a)
  }

  /** The completion that `a` owes is the last, and it is of an internal flush. */
  predicate LastFlush(pg: Page, a: Client) {
    Count(pg, a) == 1 && Internal(pg, a)
  }

  lemma FirstOnly(ws: seq<Waiter>)
    requires ws != []
    ensures Clients(ws[..1]) == {ws[0].client}
  {
    assert ws[..1] == [ws[0]];
    assert ws[0] in ws[..1];
  }

  /** The flag, and whether `a` still owes one completion of an internal flush, after a service. */
  lemma ServiceLeaves(pg: Page, data: Content, a: Client)
    requires pg.entry.wait != [] && Count(pg, a) > 0
    ensures var ws, r := pg.entry.wait, Service(pg, data, true, false);
            var n := BatchSize(ws, true);
            && r.entry.access == pg.entry.access + Clients(ws[..n]) && r.entry.wait == ws[n..]
            && r.entry.writeGranted == ws[0].write && Count(r, a) > 0
            && (LastFlush(r, a) <==> LastFlush(pg, a) && (n < |ws| ==> a !in pg.entry.access && a !in Clients(ws[..n])))
  {
    var n := ServesOneBatch(pg, data, true, false);
  }

  /** What the write-back leaves of the flag and of the completions that `a` owes. */
  lemma WriteBackLeaves(s: Run, data: Content, err: int, a: Client)
    requires s.pc == Writing(data, false) && Count(s.page, a) > 0
    ensures var ws, r := s.page.entry.wait, WrittenBack(s, data, err);
            && Count(r, a) > 0
            && (if ws == [] then r.entry.writeGranted == s.page.entry.writeGranted &&
                 LastFlush(r, a) == LastFlush(s.page, a)
                else var n := BatchSize(ws, true);
                     && r.entry.writeGranted == ws[0].write
                     && (LastFlush(r, a) <==>
                           LastFlush(s.page, a) && (n < |ws| ==> a !in s.page.entry.access && a !in Clients(ws[..n]))))
  {
    var out := WrittenPage(s.page, err);
    if out.entry.wait != [] {
      ServiceLeaves(out, data, a);
    }
  }

  /** In every idle state a completion that is owed stops the pager if and only if it is the last one, of an
      internal flush, while the flag is set; in particular that of a writer that has nothing to return. */
  lemma CompletionHalts(s: Run, a: Client)
    requires s.pc.Idle? && Count(s.page, a) > 0
    ensures Step(s, Completed(a)).pc.Halted? <==> LastFlush(s.page, a) && s.page.entry.writeGranted
  {
  }

  lemma ThreeSteps(s: Run, e0: Event, e1: Event, e2: Event)
    requires Enabled(s, e0) && Enabled(Step(s, e0), e1) && Enabled(Step(Step(s, e0), e1), e2)
    ensures Valid(s, [e0, e1, e2]) && Exec(s, [e0, e1, e2]) == Step(Step(Step(s, e0), e1), e2)
  {
    Extend(s, [], e0);
    Extend(s, [e0], e1);
    Extend(s, [e0, e1], e2);
    assert [] + [e0] == [e0] && [e0] + [e1] == [e0, e1] && [e0, e1] + [e2] == [e0, e1, e2];
  }

  /** The first waiter would be alone with the page once `a` has given it up, and is to be unlocked. */
  predicate UnlocksFirst(pg: Page, a: Client) {
    !pg.entry.writeGranted && FirstAlone(pg.entry.access - {a}, pg.entry.wait)
  }

  /** The flag is set when a dirty return of `a` has been written back, and `a` was not flushed again. */
  predicate FlagAfterDirty(pg: Page, a: Client) {
    var ws := pg.entry.wait;
    if ws == [] then pg.entry.writeGranted
    else if pg.entry.access - {a} == {} then LeavesWriter(ws, a)
    else LeavesWriterAtOnce(ws, a)
  }

  predicate FlagAfterClean(pg: Page, a: Client) {
    var ws := pg.entry.wait;
    if ws != [] && pg.entry.access - {a} == {} then LeavesWriterAtOnce(ws, a) else pg.entry.writeGranted
  }

  /** A client that owes a completion returns the page dirty, in any idle state.  If the first waiter is now
      to be unlocked the pager stops at once, on the assertion about DIRTY.  Otherwise the page is written
      back and the completion comes, and the pager stops if and only if that was the last completion
      owed, of an internal flush, and the flag is set: it was and nobody waited, or a writer was served
      last. */
  lemma HandoverExactly(s: Run, a: Client, data: Content, err: int)
    requires s.pc.Idle? && a != MACH_PORT_DEAD && Count(s.page, a) > 0
    ensures var evs := [Return(a, data, true, false), WriteDone(err), Completed(a)];
            if UnlocksFirst(s.page, a) then Step(s, evs[0]).pc.Halted?
            else Valid(s, evs) && (Exec(s, evs).pc.Halted? <==> LastFlush(s.page, a) && FlagAfterDirty(s.page, a))
  {
    if s.page.entry.access - {a} == {} {
      LastHandover(s, a, data, err);
    } else if UnlocksFirst(s.page, a) {
      UnlockStops(s, a, data);
    } else {
      SharedHandover(s, a, data, err);
    }
  }

  lemma UnlockStops(s: Run, a: Client, data: Content)
    requires s.pc.Idle? && a != MACH_PORT_DEAD && UnlocksFirst(s.page, a)
    ensures Step(s, Return(a, data, true, false)).pc.Halted?
  {
  }

  /** Nobody else has the page: the return serves, and the write-back serves again. */
  lemma LastHandover(s: Run, a: Client, data: Content, err: int)
    requires s.pc.Idle? && a != MACH_PORT_DEAD && Count(s.page, a) > 0 && s.page.entry.access - {a} == {}
    ensures var evs := [Return(a, data, true, false), WriteDone(err), Completed(a)];
            && !UnlocksFirst(s.page, a) && Valid(s, evs)
            && (Exec(s, evs).pc.Halted? <==> LastFlush(s.page, a) && FlagAfterDirty(s.page, a))
  {
    var s1 := Step(s, Return(a, data, true, false));
    LastReturnLeaves(s, a, data);
    WriteDoneStep(s1, data, err);
    WriteBackLeaves(s1, data, err, a);
    var s2 := Step(s1, WriteDone(err));
    CompletionHalts(s2, a);
    ThreeSteps(s, Return(a, data, true, false), WriteDone(err), Completed(a));
    if s.page.entry.wait != [] {
      TwoServices(s.page.entry.wait, s.page, s1.page, s2.page, a);
    }
  }

  lemma LastReturnLeaves(s: Run, a: Client, data: Content)
    requires s.pc.Idle? && a != MACH_PORT_DEAD && Count(s.page, a) > 0 && s.page.entry.access - {a} == {}
    ensures var ws, t := s.page.entry.wait, Step(s, Return(a, data, true, false));
            && t.pc == Writing(data, false) && Count(t.page, a) > 0
            && (if ws == [] then
                  && t.page.entry.wait == [] && t.page.entry.writeGranted == s.page.entry.writeGranted
                  && LastFlush(t.page, a) == LastFlush(s.page, a)
                else
                  var n := BatchSize(ws, true);
                  && t.page.entry.access == Clients(ws[..n]) && t.page.entry.wait == ws[n..]
                  && t.page.entry.writeGranted == ws[0].write
                  && (LastFlush(t.page, a) <==> LastFlush(s.page, a) && (n < |ws| ==> a !in Clients(ws[..n]))))
  {
    LastReturn(s, a, data);
    if s.page.entry.wait != [] {
      ServiceLeaves(Evict(s.page, a), data, a);
    }
  }

  /** Others have the page: only the write-back serves. */
  lemma SharedHandover(s: Run, a: Client, data: Content, err: int)
    requires s.pc.Idle? && a != MACH_PORT_DEAD && Count(s.page, a) > 0
    requires s.page.entry.access - {a} != {} && !UnlocksFirst(s.page, a)
    ensures var evs := [Return(a, data, true, false), WriteDone(err), Completed(a)];
            && Valid(s, evs) && (Exec(s, evs).pc.Halted? <==> LastFlush(s.page, a) && FlagAfterDirty(s.page, a))
  {
    var ws, left := s.page.entry.wait, Evict(s.page, a);
    SharedReturn(s, a, data, true);
    var s1 := Step(s, Return(a, data, true, false));
    assert Count(s1.page, a) == Count(s.page, a) && LastFlush(s1.page, a) == LastFlush(s.page, a);
    WriteDoneStep(s1, data, err);
    WriteBackLeaves(s1, data, err, a);
    var s2 := Step(s1, WriteDone(err));
    CompletionHalts(s2, a);
    ThreeSteps(s, Return(a, data, true, false), WriteDone(err), Completed(a));
    if ws != [] {
      OneService(ws, s.page, s2.page, a);
    }
  }

  lemma SharedReturn(s: Run, a: Client, data: Content, dirty: bool)
    requires s.pc.Idle? && a != MACH_PORT_DEAD && s.page.entry.access - {a} != {} && !UnlocksFirst(s.page, a)
    ensures var left := Evict(s.page, a);
            Step(s, Return(a, data, dirty, false)) ==
            if dirty then Run(PagingOut(left), Writing(data, false), None) else Run(left, Idle, None)
  {
  }

  lemma TwoServices(ws: seq<Waiter>, left: Page, p1: Page, p2: Page, a: Client)
    requires ws != []
    requires var n := BatchSize(ws, true);
             && p1.entry.access == Clients(ws[..n]) && p1.entry.wait == ws[n..] && p1.entry.writeGranted == ws[0].write
             && (LastFlush(p1, a) <==> LastFlush(left, a) && (n < |ws| ==> a !in Clients(ws[..n])))
             && (if ws[n..] == [] then p2.entry.writeGranted == p1.entry.writeGranted &&
                  LastFlush(p2, a) == LastFlush(p1, a)
                 else var m := BatchSize(ws[n..], true);
                      && p2.entry.writeGranted == ws[n].write
                      && (LastFlush(p2, a) <==>
                            LastFlush(p1, a) && (m < |ws[n..]| ==>
                                a !in p1.entry.access && a !in Clients(ws[n..][..m]))))
    ensures LastFlush(p2, a) && p2.entry.writeGranted <==> LastFlush(left, a) && LeavesWriter(ws, a)
  {
    var n := BatchSize(ws, true);
    if n < |ws| && ws[n].write {
      FirstOnly(ws[n..]);
    }
  }

  lemma OneService(ws: seq<Waiter>, left: Page, p1: Page, a: Client)
    requires ws != [] && p1.entry.writeGranted == ws[0].write
    requires var n := BatchSize(ws, true);
             LastFlush(p1, a) <==> LastFlush(left, a) && (n < |ws| ==> a !in Clients(ws[..n]))
    ensures LastFlush(p1, a) && p1.entry.writeGranted <==> LastFlush(left, a) && LeavesWriterAtOnce(ws, a)
  {
    if ws[0].write {
      FirstOnly(ws);
    }
  }

  /** The same for a clean return, which serves once.  If the first waiter is to be unlocked, the pager stops
      if and only if the completion is the last, of an internal flush, and the unlock succeeds. */
  lemma CleanHandoverExactly(s: Run, a: Client, data: Content, err: int)
    requires s.pc.Idle? && a != MACH_PORT_DEAD && Count(s.page, a) > 0
    ensures var t := Step(s, Return(a, data, false, false));
            if UnlocksFirst(s.page, a) then
              && t.pc.Unlocking? && t.page.entry.wait != []
              && var u := Step(t, UnlockDone(err));
                 u.pc.Idle? && (Step(u, Completed(a)).pc.Halted? <==> LastFlush(s.page, a) && err == KERN_SUCCESS)
            else
              && t.pc.Idle?
              && (Step(t, Completed(a)).pc.Halted? <==> LastFlush(s.page, a) && FlagAfterClean(s.page, a))
  {
    var ws, left := s.page.entry.wait, Evict(s.page, a);
    var t := Step(s, Return(a, data, false, false));
    if s.page.entry.access - {a} == {} {
      LastCleanReturn(s, a, data);
      if ws != [] {
        ServiceLeaves(left, data, a);
        OneService(ws, left, t.page, a);
      }
      CompletionHalts(t, a);
    } else if UnlocksFirst(s.page, a) {
      CleanUnlock(s, a, data, err);
    } else {
      SharedReturn(s, a, data, false);
      CompletionHalts(t, a);
    }
  }

  lemma CleanUnlock(s: Run, a: Client, data: Content, err: int)
    requires s.pc.Idle? && a != MACH_PORT_DEAD && Count(s.page, a) > 0 && UnlocksFirst(s.page, a)
    ensures var t := Step(s, Return(a, data, false, false));
            && t.pc.Unlocking? && t.page.entry.wait != []
            && var u := Step(t, UnlockDone(err));
               u.pc.Idle? && (Step(u, Completed(a)).pc.Halted? <==> LastFlush(s.page, a) && err == KERN_SUCCESS)
  {
    var t := Step(s, Return(a, data, false, false));
    assert t == Run(Evict(s.page, a), Unlocking, None);
    var u := Step(t, UnlockDone(err));
    UnlockedLocks(t.page, err, a);
    CompletionHalts(u, a);
  }

  /** finalize_unlock leaves the lock record of a client that does not have the page. */
  lemma UnlockedLocks(pg: Page, err: int, a: Client)
    requires pg.entry.wait != [] && a != pg.entry.wait[0].client && !pg.entry.writeGranted
    ensures var r := FinalizeUnlock(pg, err);
            && Count(r, a) == Count(pg, a) && Internal(r, a) == Internal(pg, a)
            && r.entry.writeGranted == (err == KERN_SUCCESS)
  {
  }

  /** Such a run: client 1 writes, client 2 asks to write, client 1 gives the page up as it is told. */
  lemma HandoverIsReached() returns (evs: seq<Event>)
    ensures GuardedRun(evs) && Exec(Init, evs).pc.Halted?
  {
    var before := FirstWriter();
    var ask := Request(2, true);
    var s2 := Exec(Init, before);
    var s := Step(s2, ask);
    assert s.page.entry.wait == [Waiter(2, true)] && s.page.entry.access == {1} && s.page.hist.writers == {1};
    assert LastFlush(s.page, 1);
    Extend(Init, before, ask);
    var asked := before + [ask];
    assert asked[..|before|] == before && GuardedRun(asked);
    WriteAccessIsExclusive(asked);
    HandoverExactly(s, 1, 8, KERN_SUCCESS);
    evs := GuardedHandover(asked, s);
  }

  lemma GuardedHandover(before: seq<Event>, s: Run) returns (evs: seq<Event>)
    requires GuardedRun(before) && s == Exec(Init, before) && s.pc.Idle? && s.page.entry.access == {1}
    requires s.page.entry.wait == [Waiter(2, true)]
    requires var three := [Return(1, 8, true, false), WriteDone(KERN_SUCCESS), Completed(1)];
             Valid(s, three) && Exec(s, three).pc.Halted?
    ensures GuardedRun(evs) && Exec(Init, evs).pc.Halted?
  {
    var e0, e1, e2 := Return(1, 8, true, false), WriteDone(KERN_SUCCESS), Completed(1);
    LastReturn(s, 1, 8);
    var left := Evict(s.page, 1);
    ServiceEffect(left, 8, true, false);
    var s1 := Step(s, e0);
    assert s1.page.entry.wait == [];
    WriteDoneStep(s1, 8, KERN_SUCCESS);
    ThreeSteps(s, e0, e1, e2);
    Extend(Init, before, e0);
    Extend(Init, before + [e0], e1);
    Extend(Init, before + [e0] + [e1], e2);
    evs := before + [e0] + [e1] + [e2];
    assert (before + [e0])[..|before|] == before && GuardedRun(before + [e0]);
    assert (before + [e0] + [e1])[..|before| + 1] == before + [e0] && GuardedRun(before + [e0] + [e1]);
    assert evs[..|before| + 2] == before + [e0] + [e1];
  }

  /** The shortest such run: client 1 writes, client 2 asks to write, and client 1 completes the flush without
      returning anything. */
  lemma CompletionAloneHalts() returns (evs: seq<Event>)
    ensures GuardedRun(evs) && Exec(Init, evs).pc.Halted?
  {
    var before := FirstWriter();
    var s := Step(Exec(Init, before), Request(2, true));
    assert LastFlush(s.page, 1) && s.page.entry.writeGranted;
    CompletionHalts(s, 1);
    evs := GuardedStep(before, Request(2, true));
    evs := GuardedStep(evs, Completed(1));
  }
}
