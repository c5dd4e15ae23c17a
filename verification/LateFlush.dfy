/**
The theorem of libpager/NOTES:949, that no flush is outstanding when nobody waits: it fails, and this is
exactly which events leave a flush behind when they leave WAITLIST empty.
*/
module LateFlush {
  import opened PageSpec
  import opened PagerRun
  import opened PagerLimits

  /** The event closes the lock record of `c`. */
  predicate Closes(s: Run, ev: Event, c: Client) {
    (ev == Completed(c) && Count(s.page, c) == 1) || ev == Dropped(c)
  }

  ghost predicate WaitsAt(pg: Page, c: Client) {
    exists i :: 0 <= i < |pg.entry.wait| && pg.entry.wait[i].client == c
  }

  /** The event flushes `c` so that it will ask again and find an error: a page-in failed while `c` waited
      for more than the access it has, or its unlock failed. */
  ghost predicate FlushesForError(s: Run, ev: Event, c: Client) {
    match ev
    case ReadDone(err, _, _) => err != KERN_SUCCESS && c in s.page.entry.access && WaitsAt(s.page, c)
    case UnlockDone(err) => err != KERN_SUCCESS && s.page.entry.wait != [] && c == s.page.entry.wait[0].client
    case _ => false
  }

  /** The internal flushes of `pg` are those of `q`. */
  ghost predicate SameFlushes(pg: Page, q: Page) {
    forall c :: Internal(pg, c) == Internal(q, c)
  }

  /** send_error_to_WAITLIST flushes the waiting clients that have access. */
  lemma {:induction false} ErrorFlushes(pg: Page, ws: seq<Waiter>, c: Client)
    ensures Internal(ErrorAll(pg, ws), c) <==>
            Internal(pg, c) || (c in pg.entry.access && exists i :: 0 <= i < |ws| && ws[i].client == c)
    decreases |ws|
  {
    if ws != [] {
      var one := ErrorOne(pg, ws[0]);
      ErrorFlushes(one, ws[1..], c);
      assert one.entry == pg.entry;
      assert forall i :: 1 <= i < |ws| ==> ws[i] == ws[1..][i - 1];
      assert (exists i :: 0 <= i < |ws| && ws[i].client == c) <==>
             ws[0].client == c || exists i :: 0 <= i < |ws[1..]| && ws[1..][i].client == c;
    }
  }

  lemma CompleteFlushes(s: Run, pg: Page, c: Client, dropping: Option<Client>)
    ensures var t := Continue(s, CompleteInternal(pg, c), dropping);
            t.pc.Idle? && t.page.entry.wait == [] && s.pc.Idle? ==> SameFlushes(t.page, pg)
  {
    var left := Evict(pg, c);
    forall x ensures Internal(SendError(left), x) <==>
      Internal(left, x) || (x in left.entry.access && WaitsAt(left, x)) {
      ErrorFlushes(left, left.entry.wait, x);
    }
    var t := Continue(s, CompleteInternal(pg, c), dropping);
    if t.pc.Idle? && t.page.entry.wait == [] && s.pc.Idle? {
      var q := if c in pg.entry.access && pg.entry.wait != [] then SendError(left) else pg;
      FinishFlushes(q, dropping);
      assert SameFlushes(q, pg);
    }
  }

  lemma FinishFlushes(pg: Page, dropping: Option<Client>)
    ensures SameFlushes(Finish(pg, dropping).page, pg)
  {
  }

  lemma RequestFlushes(s: Run, c: Client, write: bool)
    requires Orderly(s) && s.pc.Idle?
    ensures var t := Step(s, Request(c, write));
            t.pc.Idle? && t.page.entry.wait == [] ==> SameFlushes(t.page, s.page)
  {
    RequestLists(s, c, write);
    if c in s.page.entry.access && s.page.entry.wait != [] {
      CompleteFlushes(s, Enqueue(s.page, c, write), c, None);
    }
  }

  lemma ServiceFlushes(pg: Page, data: Content, allowWrite: bool, dealloc: bool)
    requires pg.entry.wait != []
    ensures var r := Service(pg, data, allowWrite, dealloc); r.entry.wait == [] ==> SameFlushes(r, pg)
  {
    ServiceEffect(pg, data, allowWrite, dealloc);
  }

  lemma ReturnFlushes(s: Run, c: Client, data: Content, dirty: bool, kernelCopy: bool)
    requires s.pc.Idle?
    ensures var t := Step(s, Return(c, data, dirty, kernelCopy));
            t.pc.Idle? && t.page.entry.wait == [] ==> SameFlushes(t.page, s.page)
  {
    var left := if kernelCopy || c == MACH_PORT_DEAD then s.page else Evict(s.page, c);
    ReturnShape(s, c, data, dirty, kernelCopy);
    if left.entry.wait != [] {
      ServiceFlushes(left, data, true, false);
    }
  }

  lemma ReadFlushes(s: Run, err: int, data: Content, writeLock: bool, c: Client)
    requires Orderly(s) && s.pc.Paging?
    ensures var ev := ReadDone(err, data, writeLock);
            var t := Step(s, ev);
            t.page.entry.wait == [] ==> (Internal(t.page, c) <==> Internal(s.page, c) || FlushesForError(s, ev, c))
  {
    EndPageInFlushes(s.page, err, data, writeLock, c);
    FinishFlushes(EndPageIn(s.page, err, data, writeLock), s.dropping);
  }

  lemma EndPageInFlushes(pg: Page, err: int, data: Content, writeLock: bool, c: Client)
    requires pg.entry.wait != []
    ensures var r := EndPageIn(pg, err, data, writeLock);
            r.entry.wait == [] ==>
              (Internal(r, c) <==> Internal(pg, c) || (err != KERN_SUCCESS && c in pg.entry.access && WaitsAt(pg, c)))
  {
    var noted := pg.(entry := pg.entry.(error := err));
    if err == KERN_SUCCESS {
      ServiceFlushes(noted, data, !writeLock, true);
    } else {
      ErrorFlushes(noted, noted.entry.wait, c);
    }
  }

  lemma UnlockFlushes(s: Run, err: int, c: Client)
    requires Orderly(s) && s.pc.Unlocking?
    ensures var t := Step(s, UnlockDone(err));
            t.page.entry.wait == [] ==> (Internal(t.page, c) <==>
              Internal(s.page, c) || FlushesForError(s, UnlockDone(err), c))
  {
    FinishFlushes(FinalizeUnlock(s.page, err), s.dropping);
  }

  lemma WriteFlushes(s: Run, err: int)
    requires s.pc.Writing?
    ensures var t := Step(s, WriteDone(err)); t.pc.Idle? && t.page.entry.wait == [] ==> SameFlushes(t.page, s.page)
  {
    var out := WrittenPage(s.page, err);
    if out.entry.wait != [] {
      ServiceFlushes(out, s.pc.data, true, false);
    }
  }

  lemma ReplyFlushes(s: Run, c: Client, x: Client)
    requires s.pc.Idle?
    ensures var t := Step(s, Completed(c));
            t.pc.Idle? && t.page.entry.wait == [] ==> (Internal(t.page, x) <==>
              Internal(s.page, x) && !Closes(s, Completed(c), x))
  {
    CompleteFlushes(s, s.page.(locks := s.page.locks - {c}), c, None);
  }

  lemma DropFlushes(s: Run, c: Client, x: Client)
    requires s.pc.Idle?
    ensures var t := Step(s, Dropped(c));
            t.pc.Idle? && t.page.entry.wait == [] ==> (Internal(t.page, x) <==> Internal(s.page, x) && x != c)
  {
    var closed := s.page.(locks := s.page.locks - {c});
    CompleteFlushes(s, closed, c, Some(c));
    FinishFlushes(closed, Some(c));
  }

  /** After an event that leaves the pager idle and WAITLIST empty, a client has an unanswered internal
      flush if and only if it had one that the event does not close, or the event flushed it for an
      error. */
  lemma LateFlushExactly(s: Run, ev: Event, c: Client)
    requires Orderly(s) && Enabled(s, ev)
    requires Step(s, ev).pc.Idle? && Step(s, ev).page.entry.wait == []
    ensures Internal(Step(s, ev).page, c) <==> (Internal(s.page, c) && !Closes(s, ev, c)) || FlushesForError(s, ev, c)
  {
    match ev
    case Request(d, write) => RequestFlushes(s, d, write);
    case Completed(d) => ReplyFlushes(s, d, c);
    case AskUnlock(d) =>
    case Return(d, data, dirty, kernelCopy) => ReturnFlushes(s, d, data, dirty, kernelCopy);
    case Dropped(d) => DropFlushes(s, d, c);
    case ReadDone(err, data, writeLock) => ReadFlushes(s, err, data, writeLock, c);
    case UnlockDone(err) => UnlockFlushes(s, err, c);
    case WriteDone(err) => WriteFlushes(s, err);
    case Locked(cs, keep, flush, reply) =>
  }

  // ----- two runs

  /** The page came back before the completion of its flush. */
  lemma FlushOutlivesWaiters() returns (evs: seq<Event>)
    ensures Valid(Init, evs) && Exec(Init, evs).pc.Idle?
    ensures Exec(Init, evs).page.entry.wait == [] && Internal(Exec(Init, evs).page, 1)
  {
    var before := FirstWriter();
    var e2, e3, e4 := Request(2, false), Return(1, 8, true, false), WriteDone(KERN_SUCCESS);
    var s2 := Exec(Init, before);
    var s3 := Step(s2, e2);
    assert s3.page.entry.wait == [Waiter(2, false)] && s3.page.entry.access == {1} && Internal(s3.page, 1);
    Extend(Init, before, e2);
    ServedOnReturn(s3);
    Extend(Init, before + [e2], e3);
    Extend(Init, before + [e2] + [e3], e4);
    evs := before + [e2] + [e3] + [e4];
  }

  lemma ServedOnReturn(s: Run)
    requires s.pc.Idle? && s.page.entry.wait == [Waiter(2, false)] && s.page.entry.access == {1} && Internal(s.page, 1)
    ensures var t := Step(s, Return(1, 8, true, false));
            && t.pc.Writing? && t.page.entry.wait == [] && Internal(t.page, 1)
            && var u := Step(t, WriteDone(KERN_SUCCESS)); u.pc.Idle? && u.page.entry.wait == [] && Internal(u.page, 1)
  {
    var left := Evict(s.page, 1);
    assert left.entry.access == {};
    ServiceEffect(left, 8, true, false);
  }

  /** A reader that alone has the page asks to write it, and the unlock fails: it is flushed, and nobody
      waits. */
  lemma FailedUnlockFlushes() returns (evs: seq<Event>)
    ensures GuardedRun(evs) && Exec(Init, evs).pc.Idle?
    ensures var pg := Exec(Init, evs).page; pg.entry.wait == [] && 1 in pg.entry.access && Internal(pg, 1)
  {
    evs := [];
    OneReader();
    evs := GuardedStep(evs, Request(1, false));
    evs := GuardedStep(evs, ReadDone(KERN_SUCCESS, 7, false));
    evs := GuardedStep(evs, AskUnlock(1));
    evs := GuardedStep(evs, UnlockDone(5));
  }

  lemma OneReader()
    ensures var t := Step(Init, Request(1, false));
            && t.pc.Paging?
            && var u := Step(t, ReadDone(KERN_SUCCESS, 7, false));
               && u.pc.Idle?
               && var v := Step(u, AskUnlock(1));
                  && v.pc.Unlocking? && v.page.entry.wait == [Waiter(1, true)] && v.page.entry.access == {1} &&
                       v.dropping.None?
  {
    var t := Step(Init, Request(1, false));
    assert t.page.entry == Entry({}, [Waiter(1, false)], false, false, false, KERN_SUCCESS);
    ServiceEffect(t.page, 7, true, true);
    assert t.page.entry.wait[..1] == [Waiter(1, false)];
    assert Clients([Waiter(1, false)]) == {1};
    var u := Step(t, ReadDone(KERN_SUCCESS, 7, false));
    assert u.page.entry == Entry({1}, [], false, false, false, KERN_SUCCESS);
  }
}
