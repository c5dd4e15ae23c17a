/**
Errors of the backing store that the pager remembers with a page: INVALID and ERROR after every run, and who is
told of them.
*/
module PageErrors {
  import opened PageSpec
  import opened PagerRun
  import opened PagerLimits
  import opened Messages

  // ----- what each event does to the two

  /** The page is evicted, and its errors are forgotten: the last client gives it back clean, or a page given up
      has been written back, and nobody waits. */
  predicate Forgets(s: Run, ev: Event)
    requires Enabled(s, ev)
  {
    var e := s.page.entry;
    match ev
    case Return(c, _, dirty, kernelCopy) =>
      !dirty && !kernelCopy && e.wait == [] && (if c == MACH_PORT_DEAD then e.access else e.access - {c}) == {}
    case WriteDone(_) => !s.pc.kernelCopy && e.wait == []
    case _ => false
  }

  function InvalidAfter(s: Run, ev: Event): bool
    requires Enabled(s, ev)
  {
    if Forgets(s, ev) then false else if ev.WriteDone? then ev.err != KERN_SUCCESS else s.page.entry.invalid
  }

  function ErrorAfter(s: Run, ev: Event): int
    requires Enabled(s, ev)
  {
    if Forgets(s, ev) then KERN_SUCCESS
    else if ev.ReadDone? || (ev.WriteDone? && ev.err != KERN_SUCCESS) then ev.err
    else s.page.entry.error
  }

  /** The errors kept with a page. */
  predicate Keeps(e: Entry, invalid: bool, error: int) {
    e.invalid == invalid && e.error == error
  }

  lemma CompleteKeepsErrors(s: Run, pg: Page, c: Client, dropping: Option<Client>)
    ensures var t := Continue(s, CompleteInternal(pg, c), dropping);
            !t.pc.Halted? ==> Keeps(t.page.entry, pg.entry.invalid, pg.entry.error)
  {
    ErrorAllEffect(Evict(pg, c), pg.entry.wait);
  }

  lemma RequestKeepsErrors(s: Run, c: Client, write: bool)
    requires s.pc.Idle?
    ensures var t := Step(s, Request(c, write));
            !t.pc.Halted? ==> Keeps(t.page.entry, s.page.entry.invalid, s.page.entry.error)
  {
    if c in s.page.entry.access && s.page.entry.wait != [] {
      CompleteKeepsErrors(s, Enqueue(s.page, c, write), c, None);
    }
  }

  lemma ReturnOutcome(pg: Page, c: Client, data: Content, dirty: bool, kernelCopy: bool)
    ensures var out := DataReturn(pg, c, data, dirty, kernelCopy);
            var access := if c == MACH_PORT_DEAD then pg.entry.access else pg.entry.access - {c};
            out.Go? ==>
              if !dirty && !kernelCopy && pg.entry.wait == [] && access == {}
              then Keeps(out.page.entry, false, KERN_SUCCESS) && out.page.nextError == []
              else Keeps(out.page.entry, pg.entry.invalid, pg.entry.error) && out.page.nextError == pg.nextError
  {
    var left := if kernelCopy || c == MACH_PORT_DEAD then pg else Evict(pg, c);
    if kernelCopy || left.entry.access != {} {
      CleanReturn(pg, c, data, dirty, kernelCopy);
    } else if left.entry.wait != [] {
      ServiceEffect(left, data, true, false);
      ServedReturn(pg, c, data, dirty, left);
    }
  }

  lemma CleanReturn(pg: Page, c: Client, data: Content, dirty: bool, kernelCopy: bool)
    requires kernelCopy || (if c == MACH_PORT_DEAD then pg else Evict(pg, c)).entry.access != {}
    ensures var out := DataReturn(pg, c, data, dirty, kernelCopy);
            out.Go? ==> Keeps(out.page.entry, pg.entry.invalid, pg.entry.error) && out.page.nextError == pg.nextError
  {
  }

  lemma ServedReturn(pg: Page, c: Client, data: Content, dirty: bool, left: Page)
    requires left == (if c == MACH_PORT_DEAD then pg else Evict(pg, c)) && left.entry.access == {}
    requires left.entry.wait != []
    ensures var r := Service(left, data, true, false);
            DataReturn(pg, c, data, dirty, false) ==
            Go(if dirty then r.(entry := r.entry.(pagingOut := true)) else r, Done)
  {
  }

  lemma ReturnErrors(s: Run, c: Client, data: Content, dirty: bool, kernelCopy: bool)
    requires s.pc.Idle?
    ensures var t, ev := Step(s, Return(c, data, dirty, kernelCopy)), Return(c, data, dirty, kernelCopy);
            !t.pc.Halted? ==> Keeps(t.page.entry, InvalidAfter(s, ev), ErrorAfter(s, ev))
  {
    var out := DataReturn(s.page, c, data, dirty, kernelCopy);
    ReturnOutcome(s.page, c, data, dirty, kernelCopy);
    if out.Go? {
      FinishErrors(out.page, None);
      assert Continue(s, out, None).page == out.page;
    }
  }

  lemma EndErrors(s: Run, ev: Event)
    requires Orderly(s) && Enabled(s, ev) && (ev.ReadDone? || ev.UnlockDone? || ev.WriteDone?)
    ensures Keeps(Step(s, ev).page.entry, InvalidAfter(s, ev), ErrorAfter(s, ev))
  {
    var pg := s.page;
    match ev
    case ReadDone(err, data, writeLock) =>
      var noted := pg.(entry := pg.entry.(error := err));
      ServiceEffect(noted, data, !writeLock, true);
      ErrorAllEffect(noted, noted.entry.wait);
      FinishErrors(EndPageIn(pg, err, data, writeLock), s.dropping);
    case UnlockDone(err) => FinishErrors(FinalizeUnlock(pg, err), s.dropping);
    case WriteDone(err) => WriteErrors(s, err);
  }

  lemma FinishErrors(pg: Page, dropping: Option<Client>)
    ensures Keeps(Finish(pg, dropping).page.entry, pg.entry.invalid, pg.entry.error)
  {
  }

  lemma WriteErrors(s: Run, err: int)
    requires s.pc.Writing?
    ensures var ev := WriteDone(err); Keeps(Step(s, ev).page.entry, InvalidAfter(s, ev), ErrorAfter(s, ev))
  {
    var out := EndWrite(s.page, err, s.pc.data, true, true).page;
    if out.entry.wait != [] {
      ServiceEffect(out, s.pc.data, true, false);
    }
  }

  lemma StepErrors(s: Run, ev: Event)
    requires Orderly(s) && Enabled(s, ev) && !Step(s, ev).pc.Halted?
    ensures Keeps(Step(s, ev).page.entry, InvalidAfter(s, ev), ErrorAfter(s, ev))
  {
    match ev
    case Request(c, write) => RequestKeepsErrors(s, c, write);
    case Completed(c) => CompleteKeepsErrors(s, s.page.(locks := s.page.locks - {c}), c, None);
    case Dropped(c) => CompleteKeepsErrors(s, s.page.(locks := s.page.locks - {c}), c, Some(c));
    case Return(c, data, dirty, kernelCopy) => ReturnErrors(s, c, data, dirty, kernelCopy);
    case AskUnlock(c) =>
    case Locked(cs, keep, flush, reply) =>
    case _ => EndErrors(s, ev);
  }

  // ----- over whole runs

  /** What an event means for the errors of the page. */
  datatype Mark = Evicted | WriteFailed(code: int) | Written | PagedIn(code: int) | Nothing

  function MarkOf(s: Run, ev: Event): Mark
    requires Enabled(s, ev)
  {
    if Forgets(s, ev) then Evicted
    else match ev
      case WriteDone(err) => if err == KERN_SUCCESS then Written else WriteFailed(err)
      case ReadDone(err, _, _) => PagedIn(err)
      case _ => Nothing
  }

  /** The marks of the events of a run. */
  function Marks(evs: seq<Event>): (ms: seq<Mark>)
    requires Valid(Init, evs)
    ensures |ms| == |evs|
    decreases |evs|
  {
    if evs == [] then []
    else Marks(evs[..|evs| - 1]) + [MarkOf(Exec(Init, evs[..|evs| - 1]), evs[|evs| - 1])]
  }

  lemma {:induction false} MarkAt(evs: seq<Event>, k: nat)
    requires Valid(Init, evs) && k < |evs|
    ensures Valid(Init, evs[..k]) && Enabled(Exec(Init, evs[..k]), evs[k])
    ensures Marks(evs)[k] == MarkOf(Exec(Init, evs[..k]), evs[k])
    decreases |evs|
  {
    if k < |evs| - 1 {
      MarkAt(evs[..|evs| - 1], k);
      PrefixOfPrefix(evs, k);
    }
  }

  /** The last write failed, at `k`, and the page has not been evicted since. */
  predicate LastWriteFailed(ms: seq<Mark>, k: nat) {
    k < |ms| && ms[k].WriteFailed? && forall j :: k < j < |ms| ==> ms[j].PagedIn? || ms[j].Nothing?
  }

  ghost predicate SomeWriteFailed(ms: seq<Mark>) {
    exists k: nat :: LastWriteFailed(ms, k)
  }

  function CodeOf(m: Mark): int {
    if m.WriteFailed? || m.PagedIn? then m.code else KERN_SUCCESS
  }

  predicate SetsError(m: Mark) {
    m.WriteFailed? || m.PagedIn? || m.Evicted?
  }

  /** ERROR was last set by the event before `n`, or never if `n` is 0. */
  ghost predicate ErrorFrom(ms: seq<Mark>, n: nat, code: int) {
    && n <= |ms| && (forall j :: n <= j < |ms| ==> !SetsError(ms[j]))
    && if n == 0 then code == KERN_SUCCESS else SetsError(ms[n - 1]) && code == CodeOf(ms[n - 1])
  }

  lemma OneMoreMark(ms: seq<Mark>, m: Mark)
    ensures SomeWriteFailed(ms + [m]) <==>
            (if m.PagedIn? || m.Nothing? then SomeWriteFailed(ms) else m.WriteFailed?)
  {
    var more := ms + [m];
    if SomeWriteFailed(ms) && (m.PagedIn? || m.Nothing?) {
      var k: nat :| LastWriteFailed(ms, k);
      assert LastWriteFailed(more, k);
    }
    if m.WriteFailed? {
      assert LastWriteFailed(more, |ms|);
    }
    if SomeWriteFailed(more) {
      var k: nat :| LastWriteFailed(more, k);
      if k < |ms| {
        assert more[|ms|] == m;
        assert forall j :: 0 <= j < |ms| ==> more[j] == ms[j];
        assert LastWriteFailed(ms, k);
      }
    }
  }

  lemma NotHalted(evs: seq<Event>)
    requires evs != [] && Valid(Init, evs) && !Exec(Init, evs).pc.Halted?
    ensures !Exec(Init, evs[..|evs| - 1]).pc.Halted?
  {
  }

  /** What the last event does to INVALID and ERROR. */
  lemma LastErrors(evs: seq<Event>, m: Mark)
    requires evs != [] && Valid(Init, evs) && !Exec(Init, evs).pc.Halted?
    requires m == MarkOf(Exec(Init, evs[..|evs| - 1]), evs[|evs| - 1])
    ensures var e, was := Exec(Init, evs).page.entry, Exec(Init, evs[..|evs| - 1]).page.entry;
            && e.invalid == (if m.PagedIn? || m.Nothing? then was.invalid else m.WriteFailed?)
            && e.error == if SetsError(m) then CodeOf(m) else was.error
  {
    NotHalted(evs);
    RevocationInProgress(evs[..|evs| - 1]);
    StepErrors(Exec(Init, evs[..|evs| - 1]), evs[|evs| - 1]);
  }

  /** INVALID tells that the last write failed and the page has not been evicted since. */
  lemma {:induction false} InvalidExactly(evs: seq<Event>)
    requires Valid(Init, evs) && !Exec(Init, evs).pc.Halted?
    ensures Exec(Init, evs).page.entry.invalid <==> SomeWriteFailed(Marks(evs))
    decreases |evs|
  {
    if evs != [] {
      var m := MarkOf(Exec(Init, evs[..|evs| - 1]), evs[|evs| - 1]);
      NotHalted(evs);
      InvalidExactly(evs[..|evs| - 1]);
      LastErrors(evs, m);
      OneMoreMark(Marks(evs[..|evs| - 1]), m);
    }
  }

  lemma ErrorFromMore(ms: seq<Mark>, m: Mark, n: nat, code: int)
    requires ErrorFrom(ms, n, code)
    ensures if SetsError(m) then ErrorFrom(ms + [m], |ms| + 1, CodeOf(m)) else ErrorFrom(ms + [m], n, code)
  {
  }

  /** ERROR is the code of the last event that sets it: a failed write, the end of a page-in, whether or not it
      failed, or an eviction. */
  lemma {:induction false} ErrorExactly(evs: seq<Event>) returns (n: nat)
    requires Valid(Init, evs) && !Exec(Init, evs).pc.Halted?
    ensures ErrorFrom(Marks(evs), n, Exec(Init, evs).page.entry.error)
    decreases |evs|
  {
    if evs == [] {
      n := 0;
    } else {
      var m := MarkOf(Exec(Init, evs[..|evs| - 1]), evs[|evs| - 1]);
      NotHalted(evs);
      n := ErrorExactly(evs[..|evs| - 1]);
      LastErrors(evs, m);
      ErrorFromMore(Marks(evs[..|evs| - 1]), m, n, Exec(Init, evs[..|evs| - 1]).page.entry.error);
      n := if SetsError(m) then |evs| else n;
    }
  }

  // ----- who is told

  /** `code` is what is kept since a write failed at `k`: that of the write or, if one has ended since, of the
      last page-in, at `m`. */
  predicate CodeSince(ms: seq<Mark>, k: nat, m: nat, code: int) {
    && k <= m < |ms| && (m == k || ms[m].PagedIn?) && (forall j :: m < j < |ms| ==> !ms[j].PagedIn?)
    && code == CodeOf(ms[m])
  }

  lemma SetLater(ms: seq<Mark>, k: nat, n: nat, code: int)
    requires ErrorFrom(ms, n, code) && LastWriteFailed(ms, k)
    ensures n > 0
  {
    assert SetsError(ms[k]);
  }

  lemma SetSince(ms: seq<Mark>, k: nat, m: nat, code: int)
    requires ErrorFrom(ms, m + 1, code) && LastWriteFailed(ms, k)
    ensures CodeSince(ms, k, m, code)
  {
    assert SetsError(ms[k]);
  }

  predicate CodeKept(evs: seq<Event>, k: nat, m: nat, code: int)
    requires Valid(Init, evs)
  {
    CodeSince(Marks(evs), k, m, code)
  }

  /** In every run the code of an invalid page is known. */
  lemma FailedCode(evs: seq<Event>, k: nat) returns (m: nat)
    requires Valid(Init, evs) && !Exec(Init, evs).pc.Halted? && LastWriteFailed(Marks(evs), k)
    ensures CodeKept(evs, k, m, Exec(Init, evs).page.entry.error)
  {
    var n := ErrorExactly(evs);
    SetLater(Marks(evs), k, n, Exec(Init, evs).page.entry.error);
    m := n - 1;
    SetSince(Marks(evs), k, m, Exec(Init, evs).page.entry.error);
  }

  /** A request that goes to page-in tells its client of INVALID, and nobody anything else. */
  lemma PageInSends(s: Run, c: Client, write: bool, x: Client)
    requires Orderly(s) && s.pc.Idle? && Step(s, Request(c, write)).pc.Paging?
    ensures OnRequest(s.page, c, write, x) ==
            if s.page.entry.invalid && x == c then [Error(s.page.entry.error)] else []
  {
    RequestLists(s, c, write);
    var pg := s.page;
    if c in pg.entry.access && pg.entry.wait != [] {
      LeftEmpty(pg.entry.access, c);
    }
  }

  /** In every run, a request that leads to a page-in is told of an error if and only if the last write of the
      page failed and the page has not been evicted since. */
  lemma FailedWriteIsTold(evs: seq<Event>, c: Client, write: bool, x: Client)
    requires Valid(Init, evs) && Exec(Init, evs).pc.Idle? && Step(Exec(Init, evs), Request(c, write)).pc.Paging?
    ensures var s := Exec(Init, evs);
            Box(Step(s, Request(c, write)).page, x) ==
            Box(s.page, x) + if x == c && SomeWriteFailed(Marks(evs)) then [Error(s.page.entry.error)]
                             else []
  {
    RevocationInProgress(evs);
    InvalidExactly(evs);
    MessagesExactly(Exec(Init, evs), Request(c, write), x);
    PageInSends(Exec(Init, evs), c, write, x);
  }

  /** The last client that has the page completes its flush, the only one it owes. */
  predicate LastGone(pg: Page, c: Client) {
    pg.entry.access == {c} && pg.entry.wait != [] && !pg.entry.writeGranted && Count(pg, c) == 1 && Internal(pg, c)
  }

  /** Then, in every run, all that wait are told of the error, and nobody waits on, if the last write of the
      page failed and the page has not been evicted since; otherwise the page is paged in. */
  lemma WaitersAreTold(evs: seq<Event>, c: Client, x: Client)
    requires Valid(Init, evs) && Exec(Init, evs).pc.Idle? && LastGone(Exec(Init, evs).page, c)
    ensures var s := Exec(Init, evs);
            var t := Step(s, Completed(c));
            if SomeWriteFailed(Marks(evs))
            then t.pc.Idle? && t.page.entry.wait == [] &&
                 Box(t.page, x) == Box(s.page, x) + Each(s.page.entry.wait, x, Error(s.page.entry.error))
            else t.pc.Paging? && t.page.entry.wait == s.page.entry.wait && Box(t.page, x) == Box(s.page, x)
  {
    var s := Exec(Init, evs);
    RevocationInProgress(evs);
    InvalidExactly(evs);
    var closed := s.page.(locks := s.page.locks - {c});
    LeftEmpty(s.page.entry.access, c);
    assert Evict(closed, c).entry.access == {};
    MessagesExactly(s, Completed(c), x);
    Joins(Box(s.page, x), [], []);
  }

  lemma MoreEvents(evs: seq<Event>, ev: Event) returns (more: seq<Event>)
    requires Valid(Init, evs) && Enabled(Exec(Init, evs), ev)
    ensures more == evs + [ev] && Valid(Init, more) && Exec(Init, more) == Step(Exec(Init, evs), ev)
    ensures Marks(more) == Marks(evs) + [MarkOf(Exec(Init, evs), ev)]
  {
    more := evs + [ev];
    Extend(Init, evs, ev);
    assert more[..|evs|] == evs;
  }

  /** Client 1 writes the page back, which fails, and keeps it. */
  lemma WriteFails() returns (evs: seq<Event>)
    ensures Valid(Init, evs) && Exec(Init, evs).pc.Idle? && evs != [] && Marks(evs)[|evs| - 1] == WriteFailed(5)
    ensures var pg := Exec(Init, evs).page;
            pg.entry == Entry({1}, [], false, true, true, 5) && pg.nextError == []
  {
    var evs0 := FirstWriter();
    var s := Exec(Init, evs0);
    var evs1 := MoreEvents(evs0, Return(1, 8, true, true));
    var t := Exec(Init, evs1);
    assert t.pc == Writing(8, true) && t.page.entry == Entry({1}, [], true, true, false, KERN_SUCCESS);
    evs := MoreEvents(evs1, WriteDone(5));
  }

  /** It then asks for the page again, is told of the error, and gets the page all the same. */
  lemma ToldAndServed(s: Run)
    requires s.pc.Idle? && s.page.entry == Entry({1}, [], false, true, true, 5) && s.page.nextError == []
    ensures var t := Step(s, Request(1, false));
            && t.pc.Paging?
            && var u := Step(t, ReadDone(KERN_SUCCESS, 7, false));
               && u.pc.Idle? && u.page.nextError == []
               && u.page.entry == Entry({1}, [], false, false, true, KERN_SUCCESS)
               && Step(u, Request(2, false)).pc.Paging?
  {
    var t := Step(s, Request(1, false));
    assert {1} - {1} == {};
    assert t.pc.Paging? && t.page.entry == Entry({}, [Waiter(1, false)], false, false, true, 5);
    var noted := t.page.(entry := t.page.entry.(error := KERN_SUCCESS));
    ServiceEffect(noted, 7, true, true);
    assert noted.entry.wait[..1] == [Waiter(1, false)] && noted.entry.wait[1..] == [];
    assert Clients([Waiter(1, false)]) == {1};
    NextPagesIn(Step(t, ReadDone(KERN_SUCCESS, 7, false)));
  }

  lemma NextPagesIn(u: Run)
    requires u.pc.Idle? && u.page.nextError == []
    requires u.page.entry == Entry({1}, [], false, false, true, KERN_SUCCESS)
    ensures Step(u, Request(2, false)).pc.Paging?
  {
  }

  /** A write fails, the client asks again, is told, and gets the page all the same: the next to ask is told of
      an error whose code is that of success. */
  lemma ErrorTurnsToSuccess() returns (evs: seq<Event>, k: nat)
    ensures Valid(Init, evs) && LastWriteFailed(Marks(evs), k) && Marks(evs)[k] == WriteFailed(5)
    ensures Exec(Init, evs).pc.Idle?
    ensures var s := Exec(Init, evs);
            var t := Step(s, Request(2, false));
            t.pc.Paging? && Box(t.page, 2) == Box(s.page, 2) + [Error(KERN_SUCCESS)]
  {
    var evs0 := WriteFails();
    ToldAndServed(Exec(Init, evs0));
    k := |evs0| - 1;
    var evs1 := MoreEvents(evs0, Request(1, false));
    evs := MoreEvents(evs1, ReadDone(KERN_SUCCESS, 7, false));
    assert Marks(evs) == Marks(evs0) + [Nothing] + [PagedIn(KERN_SUCCESS)];
    assert LastWriteFailed(Marks(evs), k);
    FailedWriteIsTold(evs, 2, false, 2);
  }
}
