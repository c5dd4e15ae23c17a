/**
Waiters that are never served, against libpager/NOTES:947: what starves a page, what ends it, and that
nothing else does.
*/
module Starvation {
  import opened PageSpec
  import opened PagerRun
  import opened PagerLimits

  /** Somebody waits, but no client has access, so no completion will ever serve the waiter. */
  predicate Starved(s: Run) {
    && s.page.entry.wait != [] && s.page.entry.access == {}
    && (s.pc.Idle? || (s.pc.Writing? && s.pc.kernelCopy))
    && s.dropping.None?
  }

  /** The client gives the page up together with its data. */
  predicate GivesPage(ev: Event) {
    ev.Return? && !ev.kernelCopy
  }

  ghost predicate OnlyRefusals(older: seq<Reply>, newer: seq<Reply>) {
    older <= newer && forall i :: |older| <= i < |newer| ==> newer[i].Refused?
  }

  lemma StarvedStep(s: Run, ev: Event)
    requires Starved(s) && Enabled(s, ev) && !GivesPage(ev)
    ensures var t := Step(s, ev);
            t.pc.Halted? || (Starved(t) && s.page.entry.wait <= t.page.entry.wait
                             && OnlyRefusals(s.page.hist.replies, t.page.hist.replies))
  {
    match ev
    case Request(c, write) =>
    case Completed(c) =>
    case AskUnlock(c) =>
    case Return(c, data, dirty, kernelCopy) =>
    case Dropped(c) =>
    case Locked(_, _, _, _) =>
    case WriteDone(err) =>
    case _ =>
  }

  /** A starved page stays starved: whatever else happens, no waiter is answered, unless a client
      returns the page although none has it. */
  lemma {:induction false} StarvationIsPermanent(s: Run, evs: seq<Event>)
    requires Starved(s) && Valid(s, evs)
    requires forall i :: 0 <= i < |evs| ==> !GivesPage(evs[i])
    ensures var t := Exec(s, evs);
            t.pc.Halted? || (Starved(t) && s.page.entry.wait <= t.page.entry.wait
                             && OnlyRefusals(s.page.hist.replies, t.page.hist.replies))
    decreases |evs|
  {
    if evs != [] {
      var before := evs[..|evs| - 1];
      StarvationIsPermanent(s, before);
      if !Exec(s, before).pc.Halted? {
        StarvedStep(Exec(s, before), evs[|evs| - 1]);
      }
    }
  }

  /** Exactly what starves a page: a request that finds the flag set and nobody with access, or the end of
      a drop_client that takes away the access just given while others still wait. */
  predicate Starves(s: Run, ev: Event)
    requires Enabled(s, ev) && (s.pc.Paging? || s.pc.Unlocking? ==> s.page.entry.wait != [])
  {
    var e := s.page.entry;
    match ev
    case Request(c, _) =>
      FirstError(s.page.nextError, c) == |s.page.nextError| && e.wait == [] && e.writeGranted && e.access == {}
    case ReadDone(err, _, writeLock) =>
      && err == KERN_SUCCESS && s.dropping.Some?
      && BatchSize(e.wait, !writeLock) < |e.wait|
      && e.access + Clients(e.wait[..BatchSize(e.wait, !writeLock)]) == {s.dropping.value}
    case UnlockDone(_) => s.dropping == Some(e.wait[0].client) && |e.wait| > 1
    case _ => false
  }

  lemma StarvesOnRequest(s: Run, c: Client, write: bool)
    requires Orderly(s) && s.pc.Idle? && !Starved(s)
    ensures Starved(Step(s, Request(c, write))) <==> Starves(s, Request(c, write))
  {
    var pg := s.page;
    RequestLists(s, c, write);
    if FirstError(pg.nextError, c) == |pg.nextError| && c in pg.entry.access && pg.entry.wait != [] {
      EvictionServes(s, Enqueue(pg, c, write), c);
    }
  }

  /** When a client that lost the page was the last to have it, the waiters are served or sent an error. */
  lemma EvictionServes(s: Run, pg: Page, c: Client)
    requires s.pc.Idle? && c in pg.entry.access && pg.entry.wait != []
    ensures !Starved(Continue(s, CompleteInternal(pg, c), None))
  {
    var left := Evict(pg, c);
    ErrorAllEffect(left, left.entry.wait);
  }

  lemma StarvesOnReturn(s: Run, c: Client, data: Content, dirty: bool, kernelCopy: bool)
    requires s.pc.Idle? && !Starved(s) && s.dropping.None?
    ensures !Starved(Step(s, Return(c, data, dirty, kernelCopy)))
  {
    var left := if kernelCopy || c == MACH_PORT_DEAD then s.page else Evict(s.page, c);
    if !kernelCopy && left.entry.access == {} && left.entry.wait != [] {
      ServedHaveAccess(left, data, true, false);
    }
  }

  /** A service leaves somebody with access. */
  lemma ServedHaveAccess(pg: Page, data: Content, allowWrite: bool, dealloc: bool)
    requires pg.entry.wait != []
    ensures pg.entry.wait[0].client in Service(pg, data, allowWrite, dealloc).entry.access
  {
    ServiceEffect(pg, data, allowWrite, dealloc);
    var ws := pg.entry.wait;
    assert ws[..BatchSize(ws, allowWrite)][0] == ws[0];
    assert ws[0] in ws[..BatchSize(ws, allowWrite)];
  }

  lemma StarvesOnDrop(s: Run, c: Client)
    requires Orderly(s) && s.pc.Idle? && !Starved(s)
    ensures !Starved(Step(s, Dropped(c)))
  {
    var closed := s.page.(locks := s.page.locks - {c});
    ErrorAllEffect(Evict(closed, c), closed.entry.wait);
  }

  /** The end of a handler starves a page that somebody has, if drop_client takes that away. */
  lemma FinishStarves(pg: Page, dropping: Option<Client>, x: Client)
    requires x in pg.entry.access
    ensures Starved(Finish(pg, dropping)) <==>
            pg.entry.wait != [] && dropping.Some? && pg.entry.access == {dropping.value}
  {
    if dropping.Some? {
      var rest := pg.entry.access - {dropping.value};
      assert x != dropping.value ==> x in rest;
      assert rest == {} ==> pg.entry.access == {dropping.value};
    }
  }

  lemma StarvesOnRead(s: Run, err: int, data: Content, writeLock: bool)
    requires Orderly(s) && s.pc.Paging?
    ensures var ev := ReadDone(err, data, writeLock); Starved(Step(s, ev)) <==> Starves(s, ev)
  {
    var noted := s.page.(entry := s.page.entry.(error := err));
    if err == KERN_SUCCESS {
      ServiceEffect(noted, data, !writeLock, true);
      ServedHaveAccess(noted, data, !writeLock, true);
      FinishStarves(Service(noted, data, !writeLock, true), s.dropping, noted.entry.wait[0].client);
    } else {
      ErrorAllEffect(noted, noted.entry.wait);
    }
  }

  lemma StarvesOnWritten(s: Run, err: int)
    requires Orderly(s) && s.pc.Writing? && !Starved(s)
    ensures !Starved(Step(s, WriteDone(err)))
  {
    var out := WrittenPage(s.page, err);
    if !s.pc.kernelCopy && out.entry.wait != [] {
      ServedHaveAccess(out, s.pc.data, true, false);
    }
  }

  lemma StarvesOnCompletion(s: Run, c: Client)
    requires s.pc.Idle? && !Starved(s) && s.dropping.None?
    ensures !Starved(Step(s, Completed(c)))
  {
    var closed := s.page.(locks := s.page.locks - {c});
    ErrorAllEffect(Evict(closed, c), closed.entry.wait);
  }

  lemma StarvesOnUnlock(s: Run, err: int)
    requires Orderly(s) && s.pc.Unlocking?
    ensures Starved(Step(s, UnlockDone(err))) <==> Starves(s, UnlockDone(err))
  {
    FinishStarves(FinalizeUnlock(s.page, err), s.dropping, s.page.entry.wait[0].client);
  }

  lemma StarvesOnAsking(s: Run, c: Client)
    requires s.pc.Idle? && !Starved(s) && s.dropping.None?
    ensures !Starved(Step(s, AskUnlock(c)))
  {
  }

  /** A page that is not starved becomes starved by an event if and only if it is one of these. */
  lemma StarvationBeginsExactly(s: Run, ev: Event)
    requires Orderly(s) && Enabled(s, ev) && !Starved(s)
    ensures Starved(Step(s, ev)) <==> Starves(s, ev)
  {
    match ev
    case Request(c, write) => StarvesOnRequest(s, c, write);
    case Return(c, data, dirty, kernelCopy) => StarvesOnReturn(s, c, data, dirty, kernelCopy);
    case Dropped(c) => StarvesOnDrop(s, c);
    case ReadDone(err, data, writeLock) => StarvesOnRead(s, err, data, writeLock);
    case WriteDone(err) => StarvesOnWritten(s, err);
    case Completed(c) => StarvesOnCompletion(s, c);
    case UnlockDone(err) => StarvesOnUnlock(s, err);
    case AskUnlock(c) => StarvesOnAsking(s, c);
    case Locked(cs, keep, flush, reply) =>
  }

  /** And it ends, short of a halt, if and only if a client gives up a page although none has it. */
  lemma StarvationEndsExactly(s: Run, ev: Event)
    requires Starved(s) && Enabled(s, ev) && !Step(s, ev).pc.Halted?
    ensures Starved(Step(s, ev)) <==> !GivesPage(ev)
  {
    if GivesPage(ev) {
      var left := if ev.client == MACH_PORT_DEAD then s.page else Evict(s.page, ev.client);
      ServedHaveAccess(left, ev.data, true, false);
    } else {
      StarvedStep(s, ev);
    }
  }

  /** The `k`th event of the run starved the page. */
  ghost predicate StarvedBy(evs: seq<Event>, k: nat) {
    && k < |evs| && Valid(Init, evs[..k]) && Enabled(Exec(Init, evs[..k]), evs[k])
    && Orderly(Exec(Init, evs[..k])) && Starves(Exec(Init, evs[..k]), evs[k])
  }

  lemma StarvedByLast(evs: seq<Event>)
    requires evs != [] && Valid(Init, evs)
    requires !Starved(Exec(Init, evs[..|evs| - 1])) && Starved(Exec(Init, evs))
    ensures StarvedBy(evs, |evs| - 1)
  {
    RevocationInProgress(evs[..|evs| - 1]);
    StarvationBeginsExactly(Exec(Init, evs[..|evs| - 1]), evs[|evs| - 1]);
  }

  /** So in every run a page is starved only if one of these events starved it. */
  lemma {:induction false} StarvedByWhat(evs: seq<Event>) returns (k: nat)
    requires Valid(Init, evs) && Starved(Exec(Init, evs))
    ensures StarvedBy(evs, k)
    decreases |evs|
  {
    if evs == [] {
      assert false;
    } else if Starved(Exec(Init, evs[..|evs| - 1])) {
      k := StarvedByWhat(evs[..|evs| - 1]);
      PrefixOfPrefix(evs, k);
    } else {
      StarvedByLast(evs);
      k := |evs| - 1;
    }
  }

  /** A writer evicts its dirty page, and asks for it again: it waits, with nobody to be flushed and
      no lock request outstanding, against libpager/NOTES:947, and by StarvationIsPermanent for good. */
  lemma StarvationIsReached() returns (evs: seq<Event>)
    ensures GuardedRun(evs) && Starved(Exec(Init, evs)) && Exec(Init, evs).page.locks == map[]
  {
    var before := FirstWriter();
    var e2, e3, e4 := Return(1, 8, true, false), WriteDone(KERN_SUCCESS), Request(1, true);
    var s2 := Exec(Init, before);
    var s3 := Step(s2, e2);
    assert s3.page.entry == Entry({}, [], true, true, false, KERN_SUCCESS);
    var s4 := Step(s3, e3);
    assert s4.page.entry == Entry({}, [], false, true, false, KERN_SUCCESS);
    var s5 := Step(s4, e4);
    assert s5.page.entry.wait == [Waiter(1, true)] && s5.page.locks == map[];
    Extend(Init, before, e2);
    Extend(Init, before + [e2], e3);
    Extend(Init, before + [e2] + [e3], e4);
    evs := before + [e2] + [e3] + [e4];
    assert evs[..|evs| - 1] == before + [e2] + [e3];
    assert (before + [e2] + [e3])[..|before| + 1] == before + [e2];
    assert (before + [e2])[..|before|] == before;
    assert GuardedRun(before + [e2]);
    assert GuardedRun(before + [e2] + [e3]);
  }
}
