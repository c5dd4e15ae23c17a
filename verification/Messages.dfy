/**
The pager as one client sees it: for every event, exactly the messages that it sends to the client.
*/
module Messages {
  import opened PageSpec
  import opened PagerRun

  /** `m` once for each entry of `c`. */
  function Each(ws: seq<Waiter>, c: Client, m: Msg): seq<Msg>
    decreases |ws|
  {
    if ws == [] then [] else (if ws[0].client == c then [m] else []) + Each(ws[1..], c, m)
  }

  /** The supplies for the entries of `c`; the deallocate flag goes with the last entry of all. */
  function Supplied(ws: seq<Waiter>, c: Client, data: Content, dealloc: bool, readOnly: bool): seq<Msg>
    decreases |ws|
  {
    if ws == [] then []
    else (if ws[0].client == c then [Supply(data, dealloc && |ws| == 1, readOnly)] else []) +
         Supplied(ws[1..], c, data, dealloc, readOnly)
  }

  /** `c` is served with the first batch, and flushed if it then has access and others still wait. */
  function Served(access: set<Client>, ws: seq<Waiter>, data: Content, allowWrite: bool, dealloc: bool, c: Client):
      seq<Msg>
    requires ws != []
  {
    var n := BatchSize(ws, allowWrite);
    Supplied(ws[..n], c, data, dealloc, !(allowWrite && ws[0].write)) +
    if n < |ws| && c in access + Clients(ws[..n]) then [Flush] else []
  }

  /** The page has been lost by `a`, which was the last to have it: if it is invalid, all of `ws` are told. */
  function Failed(e: Entry, ws: seq<Waiter>, a: Client, c: Client): seq<Msg> {
    if e.invalid && !e.writeGranted && e.access == {a} then Each(ws, c, Error(e.error)) else []
  }

  /** What a request of `a` makes the pager send to `c`. */
  function OnRequest(pg: Page, a: Client, write: bool, c: Client): seq<Msg> {
    var e, i := pg.entry, FirstError(pg.nextError, a);
    var others := e.access - {a};
    if i < |pg.nextError| then (if c == a then [Error(pg.nextError[i].code)] else [])
    else if e.wait != [] then Failed(e, e.wait + [Waiter(a, write)], a, c)
    else if (e.writeGranted && a !in e.access) || (write && others != {}) then (if c in others then [Flush] else [])
    else if e.invalid && c == a then [Error(e.error)]
    else []
  }

  /** Exactly what `ev` makes the pager send to `c`. */
  function Sends(s: Run, ev: Event, c: Client): seq<Msg>
    requires Enabled(s, ev) && (s.pc.Paging? || s.pc.Unlocking? ==> s.page.entry.wait != [])
  {
    var pg, e := s.page, s.page.entry;
    match ev
    case Request(a, write) => OnRequest(pg, a, write, c)
    case Completed(a) =>
      if Count(pg, a) == 1 && Internal(pg, a) then Failed(e, e.wait, a, c) else []
    case AskUnlock(a) => if e.wait == [] && |e.access| > 1 && c in e.access then [Flush] else []
    case Return(a, data, _, kernelCopy) =>
      if !kernelCopy && e.wait != [] && (if a == MACH_PORT_DEAD then e.access else e.access - {a}) == {}
      then Served({}, e.wait, data, true, false, c) else []
    case Dropped(a) => if Internal(pg, a) then Failed(e, e.wait, a, c) else []
    case ReadDone(err, data, writeLock) =>
      if err == KERN_SUCCESS then Served(e.access, e.wait, data, !writeLock, true, c)
      else Each(e.wait, c, if c in e.access then Flush else Error(err))
    case UnlockDone(err) =>
      if c != e.wait[0].client then []
      else if err != KERN_SUCCESS then [Flush]
      else [Grant] + if |e.wait| > 1 then [Flush] else []
    case WriteDone(_) =>
      if !s.pc.kernelCopy && e.wait != [] then Served(e.access, e.wait, s.pc.data, true, false, c) else []
    case Locked(cs, keep, flush, reply) => if c in cs then [Lock(keep, flush, reply)] else []
  }

  // ----- the primitives

  lemma Joins(a: seq<Msg>, b: seq<Msg>, c: seq<Msg>)
    ensures a + b + c == a + (b + c) && a + [] == a && [] + a == a
  {
  }

  lemma {:induction false} SupplyBox(pg: Page, ws: seq<Waiter>, data: Content, dealloc: bool, readOnly: bool, c: Client)
    ensures Box(SupplyAll(pg, ws, data, dealloc, readOnly), c) ==
            Box(pg, c) + Supplied(ws, c, data, dealloc, readOnly)
    decreases |ws|
  {
    Joins(Box(pg, c), [], []);
    if ws != [] {
      var one := SupplyOne(pg, ws[0], data, dealloc && |ws| == 1, readOnly);
      SupplyBox(one, ws[1..], data, dealloc, readOnly, c);
      var m := if ws[0].client == c then [Supply(data, dealloc && |ws| == 1, readOnly)] else [];
      assert Box(one, c) == Box(pg, c) + m;
      Joins(Box(pg, c), m, Supplied(ws[1..], c, data, dealloc, readOnly));
    }
  }

  lemma ErrorOneBox(pg: Page, w: Waiter, c: Client)
    ensures Box(ErrorOne(pg, w), c) ==
            Box(pg, c) + Each([w], c, if c in pg.entry.access then Flush else Error(pg.entry.error))
  {
    FlushAt(pg, {w.client}, c);
    Joins(Box(pg, c), [], []);
    assert [w][1..] == [];
  }

  lemma {:induction false} ErrorBox(pg: Page, ws: seq<Waiter>, c: Client)
    ensures Box(ErrorAll(pg, ws), c) ==
            Box(pg, c) + Each(ws, c, if c in pg.entry.access then Flush else Error(pg.entry.error))
    decreases |ws|
  {
    var m := if c in pg.entry.access then Flush else Error(pg.entry.error);
    Joins(Box(pg, c), [], []);
    if ws != [] {
      var one := ErrorOne(pg, ws[0]);
      ErrorOneBox(pg, ws[0], c);
      EachFirst(ws, c, m);
      assert one.entry == pg.entry;
      ErrorBox(one, ws[1..], c);
      Joins(Box(pg, c), Each([ws[0]], c, m), Each(ws[1..], c, m));
    }
  }

  lemma EachFirst(ws: seq<Waiter>, c: Client, m: Msg)
    requires ws != []
    ensures Each(ws, c, m) == Each([ws[0]], c, m) + Each(ws[1..], c, m)
  {
    assert [ws[0]][1..] == [];
  }

  lemma ServiceBox(pg: Page, data: Content, allowWrite: bool, dealloc: bool, c: Client)
    requires pg.entry.wait != []
    ensures Box(Service(pg, data, allowWrite, dealloc), c) ==
            Box(pg, c) + Served(pg.entry.access, pg.entry.wait, data, allowWrite, dealloc, c)
  {
    var ws := pg.entry.wait;
    var n, write := BatchSize(ws, allowWrite), WriteBatch(ws, allowWrite);
    SupplyBox(pg, ws[..n], data, dealloc, !write, c);
    SupplyAllEffect(pg, ws[..n], data, dealloc, !write);
    var served := SupplyAll(pg, ws[..n], data, dealloc, !write);
    LeaveBox(served, ws[n..], write, c);
    Joins(Box(pg, c), Supplied(ws[..n], c, data, dealloc, !write),
          if n < |ws| && c in served.entry.access then [Flush] else []);
  }

  lemma LeaveBox(served: Page, rest: seq<Waiter>, write: bool, c: Client)
    ensures Box(Leave(served, rest, write), c) ==
            Box(served, c) + if rest != [] && c in served.entry.access then [Flush] else []
  {
    var after := served.(entry := served.entry.(wait := rest, writeGranted := write));
    FlushAt(after, after.entry.access, c);
    Joins(Box(served, c), [], []);
  }

  lemma FinalizeBox(pg: Page, err: int, c: Client)
    requires pg.entry.wait != []
    ensures Box(FinalizeUnlock(pg, err), c) ==
            Box(pg, c) + if c != pg.entry.wait[0].client then []
                         else if err != KERN_SUCCESS then [Flush]
                         else [Grant] + if |pg.entry.wait| > 1 then [Flush] else []
  {
    var w := pg.entry.wait[0];
    var popped := pg.(entry := pg.entry.(wait := pg.entry.wait[1..]));
    Joins(Box(pg, c), [], []);
    if err == KERN_SUCCESS {
      var sent := Log(Post(popped, w.client, Grant), Answered(w, Grant));
      var granted := sent.(entry := sent.entry.(writeGranted := true),
                           hist := sent.hist.(writers := sent.hist.writers + {w.client}));
      FlushAt(granted, {w.client}, c);
      Joins(Box(pg, c), [Grant], [Flush]);
      Joins(Box(pg, c) + [Grant], [], []);
      Joins([Grant], [], []);
    } else {
      FlushAt(popped, {w.client}, c);
    }
  }

  // ----- the handlers

  lemma FinishBox(pg: Page, dropping: Option<Client>, c: Client)
    ensures Box(Finish(pg, dropping).page, c) == Box(pg, c)
  {
  }

  /** internal_lock_completed. */
  lemma CompleteBox(s: Run, pg: Page, a: Client, dropping: Option<Client>, c: Client)
    ensures var t := Continue(s, CompleteInternal(pg, a), dropping);
            !t.pc.Halted? ==> Box(t.page, c) == Box(pg, c) + Failed(pg.entry, pg.entry.wait, a, c)
  {
    var out, left := CompleteInternal(pg, a), Evict(pg, a);
    Joins(Box(pg, c), [], []);
    LeftEmpty(pg.entry.access, a);
    if out.Go? {
      if out == Go(SendError(left), Done) {
        ErrorBox(left, left.entry.wait, c);
      }
      FinishBox(out.page, dropping, c);
    }
  }

  lemma LeftEmpty(cs: set<Client>, a: Client)
    ensures cs == {a} <==> a in cs && cs - {a} == {}
  {
  }

  lemma RequestBox(s: Run, a: Client, write: bool, c: Client)
    requires Orderly(s) && s.pc.Idle?
    ensures var t := Step(s, Request(a, write));
            !t.pc.Halted? ==> Box(t.page, c) == Box(s.page, c) + OnRequest(s.page, a, write, c)
  {
    var pg := s.page;
    Joins(Box(pg, c), [], []);
    if FirstError(pg.nextError, a) == |pg.nextError| {
      if a in pg.entry.access && pg.entry.wait != [] {
        CompleteBox(s, Enqueue(pg, a, write), a, None, c);
      } else {
        JoinBox(s, a, write, c);
      }
    }
  }

  /** data_request of a client that is not, or no longer, on ACCESSLIST. */
  lemma JoinSends(left: Page, a: Client, write: bool, c: Client)
    requires a !in left.entry.access
    ensures var e, out := left.entry, Joined(left, a, write);
            && out.Go?
            && Box(out.page, c) ==
               Box(left, c) + if e.wait != [] then []
                              else if e.writeGranted || (write && e.access != {}) then
                                (if c in e.access then [Flush] else [])
                              else if e.invalid && c == a then [Error(e.error)]
                              else []
  {
    Joins(Box(left, c), [], []);
    FlushAt(Enqueue(left, a, write), left.entry.access, c);
  }

  lemma JoinBox(s: Run, a: Client, write: bool, c: Client)
    requires Orderly(s) && s.pc.Idle? && FirstError(s.page.nextError, a) == |s.page.nextError|
    requires a !in s.page.entry.access || s.page.entry.wait == []
    ensures Box(Step(s, Request(a, write)).page, c) == Box(s.page, c) + OnRequest(s.page, a, write, c)
  {
    var pg := s.page;
    var left := DropAccess(pg, a);
    assert a !in pg.entry.access ==> pg.entry.access - {a} == pg.entry.access;
    assert DataRequest(pg, a, write) == Joined(left, a, write);
    JoinSends(left, a, write, c);
    ContinueBox(s, Joined(left, a, write), None, c);
    if pg.entry.wait != [] {
      assert pg.entry.access != {a};
    }
  }

  /** A handler leaves the boxes as its critical section does. */
  lemma ContinueBox(s: Run, out: Outcome, dropping: Option<Client>, c: Client)
    requires out.Go?
    ensures Box(Continue(s, out, dropping).page, c) == Box(out.page, c)
  {
  }

  lemma UnlockSends(pg: Page, a: Client, c: Client)
    ensures var out := DataUnlock(pg, a);
            out.Go? ==>
              Box(out.page, c) ==
              Box(pg, c) + if pg.entry.wait == [] && |pg.entry.access| > 1 && c in pg.entry.access then [Flush] else []
  {
    Joins(Box(pg, c), [], []);
    var asked := Enqueue(pg, a, true);
    FlushAt(asked, pg.entry.access, c);
  }

  lemma UnlockBox(s: Run, a: Client, c: Client)
    requires s.pc.Idle?
    ensures var t := Step(s, AskUnlock(a));
            !t.pc.Halted? ==> Box(t.page, c) == Box(s.page, c) + Sends(s, AskUnlock(a), c)
  {
    var out := DataUnlock(s.page, a);
    UnlockSends(s.page, a, c);
    if out.Go? {
      ContinueBox(s, out, None, c);
    }
  }

  lemma ReturnSends(pg: Page, a: Client, data: Content, dirty: bool, kernelCopy: bool, c: Client)
    ensures var out := DataReturn(pg, a, data, dirty, kernelCopy);
            var left := if kernelCopy || a == MACH_PORT_DEAD then pg else Evict(pg, a);
            out.Go? ==>
              Box(out.page, c) ==
              if !kernelCopy && left.entry.access == {} && left.entry.wait != []
              then Box(Service(left, data, true, false), c) else Box(pg, c)
  {
  }

  lemma ReturnBox(s: Run, a: Client, data: Content, dirty: bool, kernelCopy: bool, c: Client)
    requires s.pc.Idle?
    ensures var t, ev := Step(s, Return(a, data, dirty, kernelCopy)), Return(a, data, dirty, kernelCopy);
            !t.pc.Halted? ==> Box(t.page, c) == Box(s.page, c) + Sends(s, ev, c)
  {
    var left := if kernelCopy || a == MACH_PORT_DEAD then s.page else Evict(s.page, a);
    Joins(Box(s.page, c), [], []);
    ReturnSends(s.page, a, data, dirty, kernelCopy, c);
    ReturnPage(s, a, data, dirty, kernelCopy, c);
    if left.entry.wait != [] && left.entry.access == {} {
      ServiceBox(left, data, true, false, c);
      assert Box(left, c) == Box(s.page, c);
    }
  }

  lemma ReturnPage(s: Run, a: Client, data: Content, dirty: bool, kernelCopy: bool, c: Client)
    requires s.pc.Idle?
    ensures var t, out := Step(s, Return(a, data, dirty, kernelCopy)), DataReturn(s.page, a, data, dirty, kernelCopy);
            if out.Stop? then t.pc.Halted? else Box(t.page, c) == Box(out.page, c)
  {
    var out := DataReturn(s.page, a, data, dirty, kernelCopy);
    if out.Go? {
      ContinueBox(s, out, None, c);
    }
  }

  lemma EndBox(s: Run, ev: Event, c: Client)
    requires Orderly(s) && Enabled(s, ev) && (ev.ReadDone? || ev.UnlockDone? || ev.WriteDone?)
    ensures Box(Step(s, ev).page, c) == Box(s.page, c) + Sends(s, ev, c)
  {
    var pg := s.page;
    match ev
    case ReadDone(err, data, writeLock) =>
      var noted := pg.(entry := pg.entry.(error := err));
      FinishBox(EndPageIn(pg, err, data, writeLock), s.dropping, c);
      if err == KERN_SUCCESS {
        ServiceBox(noted, data, !writeLock, true, c);
      } else {
        ErrorBox(noted, noted.entry.wait, c);
      }
    case UnlockDone(err) =>
      FinalizeBox(pg, err, c);
      FinishBox(FinalizeUnlock(pg, err), s.dropping, c);
    case WriteDone(err) => WriteBox(s, err, c);
  }

  lemma WriteSends(pg: Page, err: int, data: Content, kernelCopy: bool, c: Client)
    ensures var out := EndWrite(pg, err, data, kernelCopy, true);
            && out.Go?
            && Box(out.page, c) ==
               Box(pg, c) + if !kernelCopy && pg.entry.wait != []
                            then Served(pg.entry.access, pg.entry.wait, data, true, false, c) else []
  {
    var out := EndWrite(pg, err, data, true, true).page;
    Joins(Box(pg, c), [], []);
    if out.entry.wait != [] {
      ServiceBox(out, data, true, false, c);
    }
  }

  lemma WriteBox(s: Run, err: int, c: Client)
    requires s.pc.Writing?
    ensures Box(Step(s, WriteDone(err)).page, c) == Box(s.page, c) + Sends(s, WriteDone(err), c)
  {
    WriteSends(s.page, err, s.pc.data, s.pc.kernelCopy, c);
    ContinueBox(s, EndWrite(s.page, err, s.pc.data, s.pc.kernelCopy, true), None, c);
  }

  lemma LockedBox(s: Run, cs: set<Client>, keep: Keep, flush: bool, reply: bool, c: Client)
    requires !s.pc.Halted? && !s.pc.Thrown? && (s.pc.Paging? || s.pc.Unlocking? ==> s.page.entry.wait != [])
    ensures var ev := Locked(cs, keep, flush, reply); Box(Step(s, ev).page, c) == Box(s.page, c) + Sends(s, ev, c)
  {
    Joins(Box(s.page, c), [], []);
  }

  /** In every orderly state an event that does not stop the pager sends exactly these messages. */
  lemma MessagesExactly(s: Run, ev: Event, c: Client)
    requires Orderly(s) && Enabled(s, ev) && !Step(s, ev).pc.Halted?
    ensures Box(Step(s, ev).page, c) == Box(s.page, c) + Sends(s, ev, c)
  {
    var pg := s.page;
    match ev
    case Request(a, write) => RequestBox(s, a, write, c);
    case Completed(a) =>
      Joins(Box(pg, c), [], []);
      if Count(pg, a) == 1 && Internal(pg, a) {
        CompleteBox(s, pg.(locks := pg.locks - {a}), a, None, c);
      }
    case AskUnlock(a) => UnlockBox(s, a, c);
    case Return(a, data, dirty, kernelCopy) => ReturnBox(s, a, data, dirty, kernelCopy, c);
    case Dropped(a) =>
      Joins(Box(pg, c), [], []);
      if Internal(pg, a) {
        CompleteBox(s, pg.(locks := pg.locks - {a}), a, Some(a), c);
      }
    case Locked(cs, keep, flush, reply) => LockedBox(s, cs, keep, flush, reply, c);
    case _ => EndBox(s, ev, c);
  }

  // ----- handlers that overlap a write-back, which a run of PagerRun does not have

  /** A request that comes while the page is being written waits, and is the reason for a flush if it is the first. */
  lemma BusyRequest(pg: Page, a: Client, write: bool, c: Client)
    requires pg.entry.pagingOut && FirstError(pg.nextError, a) == |pg.nextError|
    ensures var out := DataRequest(pg, a, write);
            && out.Go? && out.op == Done
            && out.page.entry == pg.entry.(wait := pg.entry.wait + [Waiter(a, write)])
            && Box(out.page, c) == Box(pg, c) + (if pg.entry.wait == [] && c in pg.entry.access then [Flush] else [])
            && (Revoking(pg) ==> Revoking(out.page))
  {
    FlushAt(pg, pg.entry.access, c);
    Joins(Box(pg, c), [], []);
    forall x | x in pg.entry.access ensures Internal(FlushAll(pg, pg.entry.access), x) {
      FlushAt(pg, pg.entry.access, x);
    }
  }

  /** While a later block covers the page, the end of a write leaves everything but the error: the page is still
      being written, nobody is served, and nothing is sent. */
  lemma NotTheLastWrite(pg: Page, err: int, data: Content, kernelCopy: bool)
    ensures var out := EndWrite(pg, err, data, kernelCopy, false);
            && (out.Go? <==> kernelCopy)
            && (out.Go? ==>
                  && out.op == Done && out.page == pg.(entry := out.page.entry)
                  && out.page.entry.(invalid := pg.entry.invalid, error := pg.entry.error) == pg.entry
                  && out.page.entry.invalid == (err != KERN_SUCCESS)
                  && out.page.entry.error == if err != KERN_SUCCESS then err else pg.entry.error)
  {
  }
}
