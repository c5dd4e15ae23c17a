/**
Conservation over runs of the pager: every entry made on WAITLIST is answered once, in order, or
still waits; and the lock table counts exactly the unanswered lock requests.
*/
module PagerLedger {
  import opened PageSpec
  import opened PagerRun

  /** The messages that answer something: all but the lock requests. */
  function Answers(ms: seq<Msg>): seq<Msg> {
    if ms == [] then []
    else Answers(ms[..|ms| - 1]) + if ms[|ms| - 1].Lock? then [] else [ms[|ms| - 1]]
  }

  /** How many lock requests among `ms` ask for a completion. */
  function Unanswered(ms: seq<Msg>): nat {
    if ms == [] then 0
    else Unanswered(ms[..|ms| - 1]) + if ms[|ms| - 1].Lock? && ms[|ms| - 1].reply then 1 else 0
  }

  /** The WAITLIST entries that `rs` disposes of. */
  function Disposed(rs: seq<Reply>): seq<Waiter> {
    if rs == [] then []
    else Disposed(rs[..|rs| - 1]) + if rs[|rs| - 1].Refused? then [] else [rs[|rs| - 1].waiter]
  }

  function MessageTo(r: Reply, c: Client): seq<Msg> {
    match r
    case Answered(w, m) => if w.client == c then [m] else []
    case Deferred(w) => []
    case Refused(x, m) => if x == c then [m] else []
  }

  /** The messages that `rs` sends to `c`. */
  function MessagesTo(rs: seq<Reply>, c: Client): seq<Msg> {
    if rs == [] then [] else MessagesTo(rs[..|rs| - 1], c) + MessageTo(rs[|rs| - 1], c)
  }

  /** Lock requests sent to `c`, minus those the lock table still counts. */
  function Settled(pg: Page, c: Client): int {
    Unanswered(Box(pg, c)) - Count(pg, c)
  }

  /** Every entry ever made is disposed of or in `waiting`, in this order; what each client was sent,
      lock requests aside, is exactly what the disposals say; and no record is empty. */
  ghost predicate Ledger(pg: Page, waiting: seq<Waiter>) {
    && pg.hist.asked == Disposed(pg.hist.replies) + waiting
    && (forall c :: Answers(Box(pg, c)) == MessagesTo(pg.hist.replies, c))
    && (forall c :: c in pg.locks ==> pg.locks[c].count > 0)
  }

  ghost predicate SameSettled(a: Page, b: Page) {
    forall c :: Settled(a, c) == Settled(b, c)
  }

  // ----- the primitives keep the books

  lemma AppendMsg(ms: seq<Msg>, m: Msg)
    ensures Answers(ms + [m]) == Answers(ms) + if m.Lock? then [] else [m]
    ensures Unanswered(ms + [m]) == Unanswered(ms) + if m.Lock? && m.reply then 1 else 0
  {
    assert (ms + [m])[..|ms|] == ms;
  }

  lemma AppendReply(rs: seq<Reply>, r: Reply)
    ensures Disposed(rs + [r]) == Disposed(rs) + if r.Refused? then [] else [r.waiter]
    ensures forall c :: MessagesTo(rs + [r], c) == MessagesTo(rs, c) + MessageTo(r, c)
  {
    assert (rs + [r])[..|rs|] == rs;
  }

  /** What the books are kept in did not change. */
  lemma SameLedger(pg: Page, q: Page, rest: seq<Waiter>)
    requires q.box == pg.box && q.locks == pg.locks
    requires q.hist.asked == pg.hist.asked && q.hist.replies == pg.hist.replies
    ensures Ledger(pg, rest) ==> Ledger(q, rest)
    ensures SameSettled(pg, q)
  {
    assert forall c :: Box(q, c) == Box(pg, c) && Count(q, c) == Count(pg, c);
  }

  lemma AppendReplyAt(rs: seq<Reply>, r: Reply, c: Client)
    ensures MessagesTo(rs + [r], c) == MessagesTo(rs, c) + MessageTo(r, c)
  {
    assert (rs + [r])[..|rs|] == rs;
  }

  lemma PostAndLogAt(pg: Page, c: Client, m: Msg, r: Reply, x: Client)
    requires !m.Lock? && MessageTo(r, x) == if x == c then [m] else []
    ensures var q := Log(Post(pg, c, m), r);
            && Answers(Box(q, x)) == Answers(Box(pg, x)) + MessageTo(r, x)
            && Unanswered(Box(q, x)) == Unanswered(Box(pg, x))
            && MessagesTo(q.hist.replies, x) == MessagesTo(pg.hist.replies, x) + MessageTo(r, x)
  {
    AppendReplyAt(pg.hist.replies, r, x);
    AppendMsg(Box(pg, x), m);
    assert Box(Log(Post(pg, c, m), r), x) == Box(pg, x) + MessageTo(r, x);
  }

  /** A message to `c` and its entry in the history. */
  lemma PostAndLog(pg: Page, c: Client, m: Msg, r: Reply, rest: seq<Waiter>)
    requires !m.Lock? && forall x :: MessageTo(r, x) == if x == c then [m] else []
    requires Ledger(pg, (if r.Refused? then [] else [r.waiter]) + rest)
    ensures Ledger(Log(Post(pg, c, m), r), rest) && SameSettled(pg, Log(Post(pg, c, m), r))
  {
    var q := Log(Post(pg, c, m), r);
    assert q.locks == pg.locks;
    forall x ensures Answers(Box(q, x)) == MessagesTo(q.hist.replies, x) && Settled(pg, x) == Settled(q, x) {
      PostAndLogAt(pg, c, m, r, x);
    }
    assert (pg.hist.replies + [r])[..|pg.hist.replies|] == pg.hist.replies;
    var w := if r.Refused? then [] else [r.waiter];
    assert Disposed(pg.hist.replies) + (w + rest) == Disposed(pg.hist.replies) + w + rest;
  }

  lemma FlushSettles(pg: Page, cs: set<Client>, c: Client)
    ensures var q := FlushAll(pg, cs); Settled(pg, c) == Settled(q, c) && Answers(Box(q, c)) == Answers(Box(pg, c))
  {
    AppendMsg(Box(pg, c), Flush);
    FlushAt(pg, cs, c);
    assert Box(pg, c) + [] == Box(pg, c);
  }

  /** Flushing `cs` changes no answer, and counts each request it sends. */
  lemma FlushKeeps(pg: Page, cs: set<Client>, rest: seq<Waiter>)
    requires Ledger(pg, rest)
    ensures Ledger(FlushAll(pg, cs), rest) && SameSettled(pg, FlushAll(pg, cs))
  {
    forall c ensures var q := FlushAll(pg, cs);
                     Settled(pg, c) == Settled(q, c) && Answers(Box(q, c)) == Answers(Box(pg, c)) {
      FlushSettles(pg, cs, c);
    }
  }

  lemma DeferLog(pg: Page, w: Waiter, rest: seq<Waiter>)
    requires Ledger(pg, [w] + rest)
    ensures Ledger(Log(pg, Deferred(w)), rest) && SameSettled(pg, Log(pg, Deferred(w)))
  {
    var q := Log(pg, Deferred(w));
    AppendReply(pg.hist.replies, Deferred(w));
    var d := Disposed(pg.hist.replies);
    assert d + ([w] + rest) == d + [w] + rest;
    forall x ensures Box(q, x) == Box(pg, x) && Count(q, x) == Count(pg, x) &&
      MessagesTo(q.hist.replies, x) == MessagesTo(pg.hist.replies, x) {
      AppendReplyAt(pg.hist.replies, Deferred(w), x);
      assert MessagesTo(pg.hist.replies, x) + [] == MessagesTo(pg.hist.replies, x);
    }
  }

  lemma DeferKeeps(pg: Page, w: Waiter, code: int, rest: seq<Waiter>)
    requires Ledger(pg, [w] + rest)
    ensures var flushed := FlushAll(pg, {w.client});
            var q := Log(flushed.(nextError := flushed.nextError + [LateError(w.client, code)]), Deferred(w));
            Ledger(q, rest) && SameSettled(pg, q)
  {
    var flushed := FlushAll(pg, {w.client});
    FlushKeeps(pg, {w.client}, [w] + rest);
    var late := flushed.(nextError := flushed.nextError + [LateError(w.client, code)]);
    SameLedger(flushed, late, [w] + rest);
    DeferLog(late, w, rest);
  }

  lemma SupplyOneKeeps(pg: Page, w: Waiter, rest: seq<Waiter>, data: Content, dealloc: bool, readOnly: bool)
    requires Ledger(pg, [w] + rest)
    ensures var q := SupplyOne(pg, w, data, dealloc, readOnly); Ledger(q, rest) && SameSettled(pg, q)
  {
    var m := Supply(data, dealloc, readOnly);
    var sent := Log(Post(pg, w.client, m), Answered(w, m));
    PostAndLog(pg, w.client, m, Answered(w, m), rest);
    SameLedger(sent, SupplyOne(pg, w, data, dealloc, readOnly), rest);
  }

  lemma {:induction false} SupplyKeeps(pg: Page, ws: seq<Waiter>, rest: seq<Waiter>, data: Content, dealloc: bool,
      readOnly: bool)
    requires Ledger(pg, ws + rest)
    ensures var q := SupplyAll(pg, ws, data, dealloc, readOnly); Ledger(q, rest) && SameSettled(pg, q)
    decreases |ws|
  {
    if ws == [] {
      assert ws + rest == rest;
    } else {
      assert ws + rest == [ws[0]] + (ws[1..] + rest);
      SupplyOneKeeps(pg, ws[0], ws[1..] + rest, data, dealloc && |ws| == 1, readOnly);
      SupplyKeeps(SupplyOne(pg, ws[0], data, dealloc && |ws| == 1, readOnly), ws[1..], rest, data, dealloc, readOnly);
    }
  }

  lemma {:induction false} ErrorKeeps(pg: Page, ws: seq<Waiter>)
    requires Ledger(pg, ws)
    ensures Ledger(ErrorAll(pg, ws), []) && SameSettled(pg, ErrorAll(pg, ws))
    decreases |ws|
  {
    if ws != [] {
      assert ws == [ws[0]] + ws[1..];
      var one := ErrorOne(pg, ws[0]);
      if ws[0].client in pg.entry.access {
        DeferKeeps(pg, ws[0], pg.entry.error, ws[1..]);
      } else {
        PostAndLog(pg, ws[0].client, Error(pg.entry.error), Answered(ws[0], Error(pg.entry.error)), ws[1..]);
      }
      ErrorKeeps(one, ws[1..]);
    }
  }

  // ----- the handlers keep the books

  ghost predicate Books(pg: Page) {
    Ledger(pg, pg.entry.wait)
  }

  lemma SameBooks(pg: Page, q: Page)
    requires q.entry.wait == pg.entry.wait && q.box == pg.box && q.locks == pg.locks
    requires q.hist.asked == pg.hist.asked && q.hist.replies == pg.hist.replies
    ensures Books(pg) ==> Books(q)
    ensures SameSettled(pg, q)
  {
    SameLedger(pg, q, pg.entry.wait);
  }

  lemma EnqueueKeeps(pg: Page, c: Client, write: bool)
    requires Books(pg)
    ensures Books(Enqueue(pg, c, write)) && SameSettled(pg, Enqueue(pg, c, write))
  {
    var q := Enqueue(pg, c, write);
    assert forall x :: Box(q, x) == Box(pg, x) && Count(q, x) == Count(pg, x);
    var d := Disposed(pg.hist.replies);
    assert d + pg.entry.wait + [Waiter(c, write)] == d + (pg.entry.wait + [Waiter(c, write)]);
  }

  lemma RefuseKeeps(pg: Page, c: Client, code: int)
    requires Books(pg)
    ensures Books(Refuse(pg, c, code)) && SameSettled(pg, Refuse(pg, c, code))
  {
    assert [] + pg.entry.wait == pg.entry.wait;
    PostAndLog(pg, c, Error(code), Refused(c, Error(code)), pg.entry.wait);
  }

  lemma ServiceKeeps(pg: Page, data: Content, allowWrite: bool, dealloc: bool)
    requires Books(pg) && pg.entry.wait != []
    ensures Books(Service(pg, data, allowWrite, dealloc)) && SameSettled(pg, Service(pg, data, allowWrite, dealloc))
  {
    var ws := pg.entry.wait;
    var n := BatchSize(ws, allowWrite);
    var write := WriteBatch(ws, allowWrite);
    assert ws == ws[..n] + ws[n..];
    SupplyKeeps(pg, ws[..n], ws[n..], data, dealloc, !write);
    var served := SupplyAll(pg, ws[..n], data, dealloc, !write);
    var after := served.(entry := served.entry.(wait := ws[n..], writeGranted := write));
    SameLedger(served, after, ws[n..]);
    if ws[n..] != [] {
      FlushKeeps(after, after.entry.access, ws[n..]);
    }
  }

  lemma SendErrorKeeps(pg: Page)
    requires Books(pg)
    ensures Books(SendError(pg)) && SameSettled(pg, SendError(pg))
  {
    ErrorKeeps(pg, pg.entry.wait);
    SameLedger(ErrorAll(pg, pg.entry.wait), SendError(pg), []);
  }

  lemma FinalizeKeeps(pg: Page, err: int)
    requires Books(pg) && pg.entry.wait != []
    ensures Books(FinalizeUnlock(pg, err)) && SameSettled(pg, FinalizeUnlock(pg, err))
  {
    var w, rest := pg.entry.wait[0], pg.entry.wait[1..];
    var popped := pg.(entry := pg.entry.(wait := rest));
    assert pg.entry.wait == [w] + rest;
    SameLedger(pg, popped, [w] + rest);
    if err == KERN_SUCCESS {
      PostAndLog(popped, w.client, Grant, Answered(w, Grant), rest);
      var sent := Log(Post(popped, w.client, Grant), Answered(w, Grant));
      var granted := sent.(entry := sent.entry.(writeGranted := true),
                           hist := sent.hist.(writers := sent.hist.writers + {w.client}));
      SameLedger(sent, granted, rest);
      if rest != [] {
        FlushKeeps(granted, {w.client}, rest);
      }
    } else {
      DeferKeeps(popped, w, err, rest);
    }
  }

  lemma CompleteKeeps(pg: Page, c: Client)
    requires Books(pg)
    ensures var out := CompleteInternal(pg, c); out.Go? ==> Books(out.page) && SameSettled(pg, out.page)
  {
    var out := CompleteInternal(pg, c);
    var left := Evict(pg, c);
    if out == Go(SendError(left), Done) {
      SameBooks(pg, left);
      SendErrorKeeps(left);
    } else {
      assert out in {Stop, Go(pg, Done), Go(left, Done), Go(left, PageIn), Go(left, Unlock)};
      SameBooks(pg, left);
    }
  }

  lemma RequestKeeps(pg: Page, c: Client, write: bool)
    requires Books(pg)
    ensures var out := DataRequest(pg, c, write); out.Go? ==> Books(out.page) && SameSettled(pg, out.page)
  {
    var i := FirstError(pg.nextError, c);
    if i < |pg.nextError| {
      var cut := pg.(nextError := pg.nextError[..i] + pg.nextError[i + 1..]);
      SameBooks(pg, cut);
      RefuseKeeps(cut, c, pg.nextError[i].code);
    } else if pg.entry.pagingOut {
      BusyRequestKeeps(pg, c, write);
    } else if c in pg.entry.access && pg.entry.wait != [] {
      EnqueueKeeps(pg, c, write);
      CompleteKeeps(Enqueue(pg, c, write), c);
    } else {
      var left := DropAccess(pg, c);
      SameBooks(pg, left);
      JoinKeeps(left, c, write);
      assert DataRequest(pg, c, write) == Joined(left, c, write);
    }
  }

  /** data_request while the page is being written out. */
  lemma BusyRequestKeeps(pg: Page, c: Client, write: bool)
    requires Books(pg)
    ensures var asked := if pg.entry.wait == [] then FlushAll(pg, pg.entry.access) else pg;
            Books(Enqueue(asked, c, write)) && SameSettled(pg, Enqueue(asked, c, write))
  {
    FlushKeeps(pg, pg.entry.access, pg.entry.wait);
    EnqueueKeeps(if pg.entry.wait == [] then FlushAll(pg, pg.entry.access) else pg, c, write);
  }

  lemma JoinKeeps(left: Page, c: Client, write: bool)
    requires Books(left)
    ensures var out := Joined(left, c, write); out.Go? && Books(out.page) && SameSettled(left, out.page)
  {
    if left.entry.wait == [] && (left.entry.writeGranted || (write && left.entry.access != {})) {
      EnqueueKeeps(left, c, write);
      FlushKeeps(Enqueue(left, c, write), left.entry.access, Enqueue(left, c, write).entry.wait);
    } else if left.entry.wait == [] && left.entry.invalid {
      RefuseKeeps(left, c, left.entry.error);
      EnqueueKeeps(Refuse(left, c, left.entry.error), c, write);
    } else {
      EnqueueKeeps(left, c, write);
    }
  }

  lemma ReturnKeeps(pg: Page, c: Client, data: Content, dirty: bool, kernelCopy: bool)
    requires Books(pg)
    ensures var out := DataReturn(pg, c, data, dirty, kernelCopy); out.Go? ==>
      Books(out.page) && SameSettled(pg, out.page)
  {
    var left := if kernelCopy || c == MACH_PORT_DEAD then pg else Evict(pg, c);
    SameBooks(pg, left);
    SameBooks(left, ClearErrors(left));
    if !kernelCopy && left.entry.access == {} && left.entry.wait != [] {
      ServiceKeeps(left, data, true, false);
    }
    var out := DataReturn(pg, c, data, dirty, kernelCopy);
    if out.Go? && dirty {
      var clean := DataReturn(pg, c, data, false, kernelCopy).page;
      var source := if !kernelCopy && left.entry.access == {} && left.entry.wait != [] then clean else left;
      SameBooks(source, out.page);
    }
  }

  lemma UnlockKeeps(pg: Page, c: Client)
    requires Books(pg)
    ensures var out := DataUnlock(pg, c); out.Go? ==> Books(out.page) && SameSettled(pg, out.page)
  {
    var asked := Enqueue(pg, c, true);
    EnqueueKeeps(pg, c, true);
    if DataUnlock(pg, c) == Go(FlushAll(asked, pg.entry.access), Done) {
      FlushKeeps(asked, pg.entry.access, asked.entry.wait);
    } else {
      assert DataUnlock(pg, c) in {Stop, Go(pg, Done), Go(asked, Done), Go(asked, Unlock)};
    }
  }

  lemma EndWriteKeeps(pg: Page, err: int, data: Content, kernelCopy: bool)
    requires Books(pg)
    ensures var out := EndWrite(pg, err, data, kernelCopy, true); out.Go? ==>
      Books(out.page) && SameSettled(pg, out.page)
  {
    var noted := if err == KERN_SUCCESS then pg.(entry := pg.entry.(invalid := false))
                 else pg.(entry := pg.entry.(invalid := true, error := err));
    var out := noted.(entry := noted.entry.(pagingOut := false));
    SameBooks(pg, out);
    SameBooks(out, ClearErrors(out));
    if out.entry.wait != [] {
      ServiceKeeps(out, data, true, false);
    }
  }

  lemma FinishKeeps(pg: Page, dropping: Option<Client>)
    requires Books(pg)
    ensures Books(Finish(pg, dropping).page) && SameSettled(pg, Finish(pg, dropping).page)
  {
    SameBooks(pg, Finish(pg, dropping).page);
  }

  lemma ContinueKeeps(s: Run, out: Outcome, dropping: Option<Client>)
    requires Books(s.page) && (out.Go? ==> Books(out.page))
    ensures Books(Continue(s, out, dropping).page)
    ensures out.Go? ==> SameSettled(out.page, Continue(s, out, dropping).page)
  {
    if out.Go? {
      FinishKeeps(out.page, dropping);
    }
  }

  /** How many completions `ev` brings from `c`. */
  function Completions(ev: Event, c: Client): nat {
    if ev == Completed(c) then 1 else 0
  }

  /** One step keeps the books, and settles exactly one lock request per completion. */
  lemma StepKeeps(s: Run, ev: Event)
    requires Books(s.page) && Enabled(s, ev)
    ensures var t := Step(s, ev);
            && Books(t.page)
            && (!t.pc.Halted? ==>
                  forall c :: ev != Dropped(c) ==> Settled(t.page, c) == Settled(s.page, c) + Completions(ev, c))
  {
    var pg := s.page;
    match ev
    case Request(c, write) =>
      RequestKeeps(pg, c, write);
      ContinueKeeps(s, DataRequest(pg, c, write), None);
    case Completed(c) =>
      CompletedKeeps(s, c);
    case AskUnlock(c) =>
      UnlockKeeps(pg, c);
      ContinueKeeps(s, DataUnlock(pg, c), None);
    case Return(c, data, dirty, kernelCopy) =>
      ReturnKeeps(pg, c, data, dirty, kernelCopy);
      ContinueKeeps(s, DataReturn(pg, c, data, dirty, kernelCopy), None);
    case Dropped(c) =>
      DroppedKeeps(s, c);
    case Locked(cs, keep, flush, reply) =>
      LockedKeeps(s, cs, keep, flush, reply);
    case _ => EndKeeps(s, ev);
  }

  lemma CompletedKeeps(s: Run, c: Client)
    requires Books(s.page) && s.pc.Idle?
    ensures var t := Step(s, Completed(c));
            && Books(t.page)
            && (!t.pc.Halted? ==>
                  forall x :: Settled(t.page, x) == Settled(s.page, x) + Completions(Completed(c), x))
  {
    var pg := s.page;
    if Count(pg, c) != 0 {
      var fewer := if pg.locks[c].count == 1 then pg.(locks := pg.locks - {c})
                   else pg.(locks := pg.locks[c := pg.locks[c].(count := pg.locks[c].count - 1)]);
      assert forall x :: Box(fewer, x) == Box(pg, x);
      assert forall x :: Count(fewer, x) == Count(pg, x) - Completions(Completed(c), x);
      assert Books(fewer);
      CompleteKeeps(fewer, c);
      ContinueKeeps(s, LockCompleted(pg, c), None);
    }
  }

  lemma DroppedKeeps(s: Run, c: Client)
    requires Books(s.page) && s.pc.Idle?
    ensures var t := Step(s, Dropped(c));
            && Books(t.page)
            && (!t.pc.Halted? ==> forall x :: x != c ==> Settled(t.page, x) == Settled(s.page, x))
  {
    var closed := s.page.(locks := s.page.locks - {c});
    assert forall x :: Box(closed, x) == Box(s.page, x);
    assert forall x :: x != c ==> Count(closed, x) == Count(s.page, x);
    assert Books(closed);
    CompleteKeeps(closed, c);
    ContinueKeeps(s, DropLocks(s.page, c), Some(c));
  }

  lemma LockedAt(pg: Page, cs: set<Client>, keep: Keep, flush: bool, reply: bool, c: Client)
    ensures var q := ExternalLock(pg, cs, keep, flush, reply);
            Settled(pg, c) == Settled(q, c) && Answers(Box(q, c)) == Answers(Box(pg, c))
  {
    var m := Lock(keep, flush, reply);
    AppendMsg(Box(pg, c), m);
    assert Box(ExternalLock(pg, cs, keep, flush, reply), c) == Box(pg, c) + if c in cs then [m] else [];
    assert Box(pg, c) + [] == Box(pg, c);
  }

  lemma LockedKeeps(s: Run, cs: set<Client>, keep: Keep, flush: bool, reply: bool)
    requires Books(s.page)
    ensures var q := ExternalLock(s.page, cs, keep, flush, reply); Books(q) && SameSettled(s.page, q)
  {
    var pg := s.page;
    forall c ensures var q := ExternalLock(pg, cs, keep, flush, reply);
                     Settled(pg, c) == Settled(q, c) && Answers(Box(q, c)) == Answers(Box(pg, c)) {
      LockedAt(pg, cs, keep, flush, reply, c);
    }
  }

  lemma EndKeeps(s: Run, ev: Event)
    requires Books(s.page) && Enabled(s, ev) && (ev.ReadDone? || ev.UnlockDone? || ev.WriteDone?)
    ensures var t := Step(s, ev); Books(t.page) && (!t.pc.Halted? ==> SameSettled(s.page, t.page))
  {
    var pg := s.page;
    match ev
    case ReadDone(err, data, writeLock) =>
      var noted := pg.(entry := pg.entry.(error := err));
      SameBooks(pg, noted);
      if pg.entry.wait == [] {
        FinishKeeps(noted, s.dropping);
      } else {
        if err == KERN_SUCCESS {
          ServiceKeeps(noted, data, !writeLock, true);
        } else {
          SendErrorKeeps(noted);
        }
        FinishKeeps(EndPageIn(pg, err, data, writeLock), s.dropping);
      }
    case UnlockDone(err) =>
      if pg.entry.wait != [] {
        FinalizeKeeps(pg, err);
        FinishKeeps(FinalizeUnlock(pg, err), s.dropping);
      }
    case WriteDone(err) =>
      EndWriteKeeps(pg, err, s.pc.data, s.pc.kernelCopy);
      ContinueKeeps(s, EndWrite(pg, err, s.pc.data, s.pc.kernelCopy, true), None);
  }

  // ----- over whole runs

  function CompletionsFrom(evs: seq<Event>, c: Client): nat {
    if evs == [] then 0 else CompletionsFrom(evs[..|evs| - 1], c) + Completions(evs[|evs| - 1], c)
  }

  /** For a client that was never dropped the lock table counts the lock requests sent to it that
      ask for a completion, minus the completions it sent. */
  ghost predicate Accounted(s: Run, evs: seq<Event>) {
    s.pc.Halted? || forall c :: Dropped(c) !in evs ==> Settled(s.page, c) == CompletionsFrom(evs, c)
  }

  lemma AccountedStep(s: Run, before: seq<Event>, ev: Event)
    requires Books(s.page) && Enabled(s, ev) && Accounted(s, before)
    ensures Books(Step(s, ev).page) && Accounted(Step(s, ev), before + [ev])
  {
    StepKeeps(s, ev);
    var evs := before + [ev];
    assert evs[..|before|] == before;
    forall c | Dropped(c) !in evs && !Step(s, ev).pc.Halted?
      ensures Settled(Step(s, ev).page, c) == CompletionsFrom(evs, c)
    {
      assert ev in evs && Dropped(c) !in before;
    }
  }

  /** The last event of a run keeps the books. */
  lemma LastKeepsBooks(evs: seq<Event>)
    requires evs != [] && Valid(Init, evs)
    requires var s := Exec(Init, evs[..|evs| - 1]); Books(s.page) && Accounted(s, evs[..|evs| - 1])
    ensures Books(Exec(Init, evs).page) && Accounted(Exec(Init, evs), evs)
  {
    var before, ev := evs[..|evs| - 1], evs[|evs| - 1];
    PrefixAndLast(evs);
    AccountedStep(Exec(Init, before), before, ev);
  }

  /** FIFO conservation, and lock accounting, for every run: no request is lost, duplicated or
      overtaken, and the lock table is exact. */
  lemma {:induction false} RunKeepsBooks(evs: seq<Event>)
    requires Valid(Init, evs)
    ensures Books(Exec(Init, evs).page) && Accounted(Exec(Init, evs), evs)
    decreases |evs|
  {
    if evs == [] {
      InitBooks();
    } else {
      RunKeepsBooks(evs[..|evs| - 1]);
      LastKeepsBooks(evs);
    }
  }

  lemma InitBooks()
    ensures Books(Init.page) && Accounted(Init, [])
  {
    assert forall c :: Box(Init.page, c) == [] && Count(Init.page, c) == 0;
  }
}
