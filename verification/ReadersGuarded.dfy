/**
The failures of libpager/NOTES:940 in runs whose dirty returns are not served twice over: three ways remain.
*/
module ReadersGuarded {
  import opened PageSpec
  import opened PagerRun
  import opened PagerLimits
  import opened ReadersWait

  // ----- the flag means what it says

  /** If the flag is set and anybody has access, it is a client that was given write access. */
  ghost predicate FlagTrue(s: Run) {
    s.page.entry.writeGranted && s.page.entry.access != {} ==> s.page.hist.writers != {}
  }

  lemma FlagReturn(s: Run, c: Client, data: Content, dirty: bool, kernelCopy: bool)
    requires Exclusive(s) && FlagTrue(s) && s.pc.Idle?
    ensures FlagTrue(Step(s, Return(c, data, dirty, kernelCopy)))
  {
    var left := if kernelCopy || c == MACH_PORT_DEAD then s.page else Evict(s.page, c);
    FlagEvict(s.page, c);
    ReturnLists(s, c, data, dirty, kernelCopy);
    var t := Step(s, Return(c, data, dirty, kernelCopy));
    if !t.pc.Halted? {
      if !kernelCopy && left.entry.access == {} && left.entry.wait != [] {
        ServiceFlag(left, data, true, false);
      }
    }
  }

  lemma FlagEvict(pg: Page, c: Client)
    requires SingleWriter(pg) && (pg.entry.writeGranted && pg.entry.access != {} ==> pg.hist.writers != {})
    ensures var left := Evict(pg, c); left.entry.writeGranted && left.entry.access != {} ==> left.hist.writers != {}
  {
    if c in pg.entry.access && pg.entry.writeGranted {
      SoleMember(pg.entry.access, c);
    }
  }

  lemma FlagEnd(s: Run, ev: Event)
    requires Orderly(s) && Exclusive(s) && FlagTrue(s) && Enabled(s, ev)
    requires ev.ReadDone? || ev.UnlockDone? || ev.WriteDone?
    ensures FlagTrue(Step(s, ev))
  {
    match ev
    case ReadDone(err, data, writeLock) =>
      var noted := s.page.(entry := s.page.entry.(error := err));
      if err == KERN_SUCCESS {
        ServiceFlag(noted, data, !writeLock, true);
        FlagFinish(Service(noted, data, !writeLock, true), s.dropping);
      } else {
        ErrorAllEffect(noted, noted.entry.wait);
      }
    case UnlockDone(err) => FlagFinish(FinalizeUnlock(s.page, err), s.dropping);
    case WriteDone(err) =>
      var out := WrittenPage(s.page, err);
      if !s.pc.kernelCopy && out.entry.wait != [] {
        ServiceFlag(out, s.pc.data, true, false);
      }
  }

  lemma FlagFinish(pg: Page, dropping: Option<Client>)
    requires pg.entry.writeGranted ==> pg.hist.writers != {}
    ensures FlagTrue(Finish(pg, dropping))
  {
  }

  lemma FlagComplete(s: Run, pg: Page, c: Client, dropping: Option<Client>)
    requires FlagTrue(s.(page := pg)) && FlagTrue(s)
    ensures FlagTrue(Continue(s, CompleteInternal(pg, c), dropping))
  {
    var left := Evict(pg, c);
    ErrorAllEffect(left, left.entry.wait);
  }

  lemma FlagStep(s: Run, ev: Event)
    requires Orderly(s) && Exclusive(s) && FlagTrue(s) && Enabled(s, ev)
    ensures FlagTrue(Step(s, ev))
  {
    match ev
    case Request(c, write) => FlagRequest(s, c, write);
    case Completed(c) => FlagComplete(s, s.page.(locks := s.page.locks - {c}), c, None);
    case Dropped(c) => FlagComplete(s, s.page.(locks := s.page.locks - {c}), c, Some(c));
    case Return(c, data, dirty, kernelCopy) => FlagReturn(s, c, data, dirty, kernelCopy);
    case AskUnlock(c) =>
    case Locked(cs, keep, flush, reply) =>
    case _ => FlagEnd(s, ev);
  }

  lemma FlagRequest(s: Run, c: Client, write: bool)
    requires Orderly(s) && FlagTrue(s) && s.pc.Idle?
    ensures FlagTrue(Step(s, Request(c, write)))
  {
    if c in s.page.entry.access && s.page.entry.wait != [] {
      FlagComplete(s, Enqueue(s.page, c, write), c, None);
    }
  }

  lemma {:induction false} FlagIsTrue(evs: seq<Event>)
    requires GuardedRun(evs)
    ensures FlagTrue(Exec(Init, evs))
    decreases |evs|
  {
    if evs != [] {
      var before := evs[..|evs| - 1];
      FlagIsTrue(before);
      RevocationInProgress(before);
      WriteAccessIsExclusive(before);
      FlagStep(Exec(Init, before), evs[|evs| - 1]);
    }
  }

  /** What is left of the ways to fail: a read request that finds the flag set and nobody with access; an
      unlock that fails with only readers behind it; and a page-in or an unlock for a writer whom
      drop_client then takes away, with only readers behind it. */
  predicate SticksPlainly(s: Run, ev: Event)
    requires Enabled(s, ev) && (s.pc.Paging? || s.pc.Unlocking? ==> s.page.entry.wait != [])
  {
    var e := s.page.entry;
    match ev
    case Request(c, write) =>
      && FirstError(s.page.nextError, c) == |s.page.nextError|
      && !write && e.wait == [] && e.writeGranted && e.access == {}
    case ReadDone(err, _, writeLock) =>
      && err == KERN_SUCCESS && !writeLock && e.wait[0].write && OnlyReaders(e.wait[1..])
      && s.dropping == Some(e.wait[0].client)
    case UnlockDone(err) =>
      OnlyReaders(e.wait[1..]) && (err != KERN_SUCCESS || s.dropping == Some(e.wait[0].client))
    case _ => false
  }

  /** A sole writer leaves nobody. */
  lemma NoReadersLeft(pg: Page, c: Client)
    requires SingleWriter(pg)
    ensures !LeavesReaders(pg, c)
  {
  }

  /** In every run whose dirty returns are not served twice over, an event makes the theorem fail if and only
      if it is one of these three. */
  lemma ThreeWaysRemain(evs: seq<Event>, ev: Event)
    requires GuardedRun(evs) && Enabled(Exec(Init, evs), ev) && !ReadersStuck(Exec(Init, evs))
    ensures Orderly(Exec(Init, evs))
    ensures ReadersStuck(Step(Exec(Init, evs), ev)) <==> SticksPlainly(Exec(Init, evs), ev)
  {
    RevocationInProgress(evs);
    WriteAccessIsExclusive(evs);
    FlagIsTrue(evs);
    WritersAlwaysHaveAccess(evs);
    ReadersStickExactly(Exec(Init, evs), ev);
    PlainlyExact(Exec(Init, evs), ev);
  }

  lemma PlainlyExact(s: Run, ev: Event)
    requires Orderly(s) && Exclusive(s) && FlagTrue(s) && WritersHaveAccess(s) && Enabled(s, ev)
    ensures Sticks(s, ev) <==> SticksPlainly(s, ev)
  {
    match ev
    case Request(c, _) => NoReadersLeft(s.page, c);
    case Completed(c) => NoReadersLeft(s.page, c);
    case Dropped(c) => NoReadersLeft(s.page, c);
    case Return(c, _, _, _) => NoReadersLeft(s.page, c);
    case _ =>
  }
}
