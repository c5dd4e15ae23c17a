/**
The proof that every lawful run of the pager with its kernels keeps the invariant of Coherence.
*/
module CoherenceProof {
  import opened PageSpec
  import opened PagerRun
  import opened Coherence

  // ----- what the pager's primitives send to one client

  lemma {:induction false} OfMember(ws: seq<Waiter>, k: Client, n: nat)
    requires n <= |ws|
    ensures NumTo(ws, Of(k), n) > 0 <==> exists i :: 0 <= i < n && ws[i].client == k
    decreases n
  {
    if n > 0 {
      OfMember(ws, k, n - 1);
    }
  }

  lemma OfClients(ws: seq<Waiter>, k: Client)
    ensures Num(ws, Of(k)) > 0 <==> k in Clients(ws)
  {
    OfMember(ws, k, |ws|);
    if k in Clients(ws) {
      var w :| w in ws && w.client == k;
    }
  }

  lemma {:induction false} SupplySends(pg: Page, ws: seq<Waiter>, data: Content, dealloc: bool, readOnly: bool,
      k: Client)
    returns (d: bool)
    requires Num(ws, Of(k)) <= 1
    ensures Box(SupplyAll(pg, ws, data, dealloc, readOnly), k) ==
            Box(pg, k) + if Num(ws, Of(k)) == 1 then [Supply(data, d, readOnly)] else []
    decreases |ws|
  {
    d := false;
    if ws == [] {
      assert Box(pg, k) + [] == Box(pg, k);
    } else {
      NumHead(ws, Of(k));
      var last := dealloc && |ws| == 1;
      d := SupplySends(SupplyOne(pg, ws[0], data, last, readOnly), ws[1..], data, dealloc, readOnly, k);
      if ws[0].client == k {
        d := last;
      }
    }
  }

  lemma FlushSends(pg: Page, cs: set<Client>, k: Client)
    ensures Box(FlushAll(pg, cs), k) == Box(pg, k) + if k in cs then [Flush] else []
    ensures Count(FlushAll(pg, cs), k) == Count(pg, k) + if k in cs then 1 else 0
  {
    assert Box(pg, k) + [] == Box(pg, k);
  }

  /** What service_WAITLIST sends to `k`: the page if it is in the batch, then a flush if it has
      access and anyone still waits. */
  function Served(batch: seq<Waiter>, rest: seq<Waiter>, supply: Msg, has: bool, k: Client): seq<Msg> {
    (if Num(batch, Of(k)) == 1 then [supply] else []) + (if rest != [] && has then [Flush] else [])
  }

  lemma LeaveSends(pg: Page, rest: seq<Waiter>, write: bool, k: Client)
    ensures var r := Leave(pg, rest, write);
            && Box(r, k) == Box(pg, k) + (if rest != [] && k in pg.entry.access then [Flush] else [])
            && Count(r, k) == Count(pg, k) + if rest != [] && k in pg.entry.access then 1 else 0
  {
    var after := pg.(entry := pg.entry.(wait := rest, writeGranted := write));
    FlushSends(after, after.entry.access, k);
    assert Box(pg, k) + [] == Box(pg, k);
  }

  lemma ServedThenLeft(pg: Page, served: Page, batch: seq<Waiter>, rest: seq<Waiter>, write: bool, supply: Msg,
      k: Client)
    requires Box(served, k) == if Num(batch, Of(k)) == 1 then [supply] else []
    requires served.locks == pg.locks && served.entry.access == pg.entry.access + Clients(batch)
    ensures var r := Leave(served, rest, write);
            var has := k in pg.entry.access + Clients(batch);
            && Box(r, k) == Served(batch, rest, supply, has, k)
            && Count(r, k) == Count(pg, k) + if rest != [] && has then 1 else 0
  {
    LeaveSends(served, rest, write, k);
  }

  lemma ServiceSends(pg: Page, data: Content, allowWrite: bool, dealloc: bool, k: Client) returns (d: bool)
    requires pg.entry.wait != [] && Num(pg.entry.wait, Of(k)) <= 1 && Box(pg, k) == []
    ensures var ws := pg.entry.wait;
            var n := BatchSize(ws, allowWrite);
            var r := Service(pg, data, allowWrite, dealloc);
            var has := k in pg.entry.access + Clients(ws[..n]);
            && Num(ws, Of(k)) == Num(ws[..n], Of(k)) + Num(ws[n..], Of(k))
            && Box(r, k) == Served(ws[..n], ws[n..], Supply(data, d, !WriteBatch(ws, allowWrite)), has, k)
            && Count(r, k) == Count(pg, k) + if ws[n..] != [] && has then 1 else 0
  {
    var ws := pg.entry.wait;
    var n := BatchSize(ws, allowWrite);
    var write := WriteBatch(ws, allowWrite);
    assert ws == ws[..n] + ws[n..];
    NumConcat(ws[..n], ws[n..], Of(k));
    d := SupplySends(pg, ws[..n], data, dealloc, !write, k);
    SupplyAllEffect(pg, ws[..n], data, dealloc, !write);
    ServedThenLeft(pg, SupplyAll(pg, ws[..n], data, dealloc, !write), ws[..n], ws[n..], write, Supply(data, d, !write),
      k);
  }

  /** Clients without access that wait get an error each. */
  lemma {:induction false} ErrorSends(pg: Page, ws: seq<Waiter>, k: Client)
    requires Num(ws, Of(k)) <= 1 && Clients(ws) !! pg.entry.access
    ensures Box(ErrorAll(pg, ws), k) ==
            Box(pg, k) + if Num(ws, Of(k)) == 1 then [Error(pg.entry.error)] else []
    ensures ErrorAll(pg, ws).locks == pg.locks
    decreases |ws|
  {
    if ws == [] {
      assert Box(pg, k) + [] == Box(pg, k);
    } else {
      NumHead(ws, Of(k));
      ClientsCons(ws);
      assert ws[0].client !in pg.entry.access;
      ErrorSends(ErrorOne(pg, ws[0]), ws[1..], k);
    }
  }

  // ----- delivering messages to a client

  /** `ms` may be added to the inbox of `k`, given the pager's new state. */
  ghost predicate Deliverable(run: Run, latest: Content, k: Client, q: Kernel, ms: seq<Msg>) {
    var pg := run.page;
    && Num(q.outbox, IsRequest) + Num(pg.entry.wait, Of(k)) + Num(q.inbox, IsAnswer) + Num(ms, IsAnswer) <= 1
    && Holds(q) + Num(ms, IsSupply) <= 1
    && (Holds(q) + Num(ms, IsSupply) == 1 ==> k in pg.entry.access)
    && Ordered(q)
    && Count(pg, k) == Num(q.inbox, IsCounted) + Num(q.outbox, IsDone) + Num(ms, IsCounted)
    && (Settled(run.pc) && pg.entry.wait != [] && k in pg.entry.access ==>
          if Last(ms, MsgMark) != Nothing then Last(ms, MsgMark) != Had else Tail(q) != Had)
    && (MayWrite(q) || Num(ms, IsWritable) > 0 || Num(ms, IsGrant) > 0 ==> k in pg.hist.writers)
    && Versions(latest, q) && Careful(q)
    && (forall i :: 0 <= i < |ms| && ms[i].Supply? ==> ms[i].data == latest)
    && (forall i :: 0 <= i < |ms| && ms[i].Lock? ==> !(ms[i].flush && ms[i].keep.ReturnNone?))
  }

  lemma Delivered(run: Run, latest: Content, k: Client, q: Kernel, ms: seq<Msg>)
    requires Deliverable(run, latest, k, q, ms)
    ensures ClientInv(run, latest, k, q.(inbox := q.inbox + ms))
  {
    PushMsgs(q.inbox, ms);
    var q' := q.(inbox := q.inbox + ms);
    assert Versions(latest, q') && Careful(q');
  }

  lemma FlushCounts()
    ensures Num([Flush], IsAnswer) == 0 && Num([Flush], IsSupply) == 0 && Num([Flush], IsWritable) == 0
    ensures Num([Flush], IsGrant) == 0 && Num([Flush], IsCounted) == 1 && Last([Flush], MsgMark) == Closed
  {
    NumOne(Flush, IsAnswer);
    NumOne(Flush, IsSupply);
    NumOne(Flush, IsWritable);
    NumOne(Flush, IsGrant);
    NumOne(Flush, IsCounted);
    LastOne(Flush, MsgMark);
  }

  // ----- a client whose message the pager takes

  lemma {:induction false} NumNone<T(!new)>(xs: seq<T>, p: T -> bool, n: nat)
    requires n <= |xs| && forall i :: 0 <= i < n ==> !p(xs[i])
    ensures NumTo(xs, p, n) == 0
    decreases n
  {
    if n > 0 {
      NumNone(xs, p, n - 1);
    }
  }

  /** Nothing of the page is with the kernel or on its way, in either direction. */
  predicate Clean(q: Kernel) {
    Holds(q) == 0 && !MayWrite(q)
  }

  /** What stays true of a kernel when its first call is taken. */
  ghost predicate Taken(run: Run, latest: Content, k: Client, q: Kernel) {
    && Ordered(q) && Versions(latest, q) && Careful(q)
    && OnePage(run.page, k, q)
    && (MayWrite(q) ==> k in run.page.hist.writers)
    && (Settled(run.pc) && run.page.entry.wait != [] && k in run.page.entry.access ==> Tail(q) != Had)
  }

  lemma TakeCall(run: Run, latest: Content, k: Client, q0: Kernel)
    requires ClientInv(run, latest, k, q0) && q0.outbox != []
    ensures Taken(run, latest, k, q0.(outbox := q0.outbox[1..]))
  {
    PopCall(q0.outbox);
    var q := q0.(outbox := q0.outbox[1..]);
    assert forall i :: 0 <= i < |q.outbox| ==> q.outbox[i] == q0.outbox[i + 1];
    assert Ordered(q);
    assert MayWrite(q) ==> MayWrite(q0);
    assert Versions(latest, q);
  }

  /** After a request or the return of the page nothing else is returned. */
  lemma NothingLeft(q0: Kernel)
    requires Ordered(q0) && q0.outbox != [] && (IsGive(q0.outbox[0]) || q0.outbox[0].WantPage?)
    requires q0.page.None? && Num(q0.inbox, IsSupply) == 0
    ensures Clean(q0.(outbox := q0.outbox[1..]))
  {
    var out := q0.outbox[1..];
    assert forall i :: 0 <= i < |out| ==> out[i] == q0.outbox[i + 1] && !out[i].GiveBack?;
    NumNone(out, IsGive, |out|);
    NumNone(out, IsDirty, |out|);
    NumLe(q0.inbox, IsWritable, IsSupply, |q0.inbox|);
  }

  lemma TakeWantPage(run: Run, latest: Content, k: Client, q0: Kernel)
    requires ClientInv(run, latest, k, q0) && q0.outbox != [] && q0.outbox[0].WantPage?
    ensures var q := q0.(outbox := q0.outbox[1..]);
            && Taken(run, latest, k, q) && Clean(q)
            && Num(q.outbox, IsRequest) == 0 && Num(run.page.entry.wait, Of(k)) == 0 && Num(q.inbox, IsAnswer) == 0
            && Count(run.page, k) == Num(q.inbox, IsCounted) + Num(q.outbox, IsDone)
  {
    TakeCall(run, latest, k, q0);
    PopCall(q0.outbox);
    NumLe(q0.inbox, IsSupply, IsAnswer, |q0.inbox|);
    NothingLeft(q0);
  }

  lemma TakeWantWrite(run: Run, latest: Content, k: Client, q0: Kernel)
    requires ClientInv(run, latest, k, q0) && q0.outbox != [] && q0.outbox[0].WantWrite?
    ensures var q := q0.(outbox := q0.outbox[1..]);
            && Taken(run, latest, k, q)
            && Num(q.outbox, IsRequest) == 0 && Num(run.page.entry.wait, Of(k)) == 0 && Num(q.inbox, IsAnswer) == 0
            && Count(run.page, k) == Num(q.inbox, IsCounted) + Num(q.outbox, IsDone)
  {
    TakeCall(run, latest, k, q0);
    PopCall(q0.outbox);
  }

  lemma TakeGiveBack(run: Run, latest: Content, k: Client, q0: Kernel)
    requires ClientInv(run, latest, k, q0) && q0.outbox != [] && q0.outbox[0].GiveBack?
    ensures var c := q0.outbox[0];
            var q := q0.(outbox := q0.outbox[1..]);
            && Taken(run, latest, k, q) && OneRequest(run.page, k, q)
            && Count(run.page, k) == Num(q.inbox, IsCounted) + Num(q.outbox, IsDone)
            && (c.dirty ==> k in run.page.hist.writers)
            && (!c.kernelCopy ==> Clean(q) && c.version == latest && k in run.page.entry.access)
            && (c.dirty && !Unsaved(q) ==> c.version == latest)
  {
    TakeCall(run, latest, k, q0);
    PopCall(q0.outbox);
    LastDirtyNum(q0.outbox[1..], |q0.outbox| - 1);
    if !q0.outbox[0].kernelCopy {
      NothingLeft(q0);
    }
  }

  /** The completion that settles the last lock request of a client shows that a client asked to
      flush has nothing of the page left. */
  lemma TakeLockDone(run: Run, latest: Content, k: Client, q0: Kernel)
    requires ClientInv(run, latest, k, q0) && q0.outbox != [] && q0.outbox[0].LockDone?
    ensures var q := q0.(outbox := q0.outbox[1..]);
            && Taken(run, latest, k, q) && OneRequest(run.page, k, q)
            && Count(run.page, k) == Num(q.inbox, IsCounted) + Num(q.outbox, IsDone) + 1
            && (Count(run.page, k) == 1 && Settled(run.pc) && run.page.entry.wait != [] &&
                 k in run.page.entry.access ==>
                  Holds(q) == 0)
  {
    TakeCall(run, latest, k, q0);
    PopCall(q0.outbox);
    if Count(run.page, k) == 1 && Settled(run.pc) && run.page.entry.wait != [] && k in run.page.entry.access {
      NoClosedMsg(q0.inbox, |q0.inbox|);
      NoClosedCall(q0.outbox[1..], |q0.outbox| - 1);
    }
  }

  lemma {:induction false} NoClosedMsg(ms: seq<Msg>, n: nat)
    requires n <= |ms| && NumTo(ms, IsCounted, n) == 0
    ensures LastTo(ms, MsgMark, n) == if NumTo(ms, IsSupply, n) > 0 then Had else Nothing
    decreases n
  {
    if n > 0 {
      NoClosedMsg(ms, n - 1);
    }
  }

  lemma {:induction false} NoClosedCall(cs: seq<Call>, n: nat)
    requires n <= |cs| && NumTo(cs, IsDone, n) == 0
    ensures LastTo(cs, CallMark, n) == if NumTo(cs, IsGive, n) > 0 then Had else Nothing
    decreases n
  {
    if n > 0 {
      NoClosedCall(cs, n - 1);
    }
  }

  // ----- the pager's handlers, seen by one client

  /** The requests of `k` in its own channels. */
  function Requests(q: Kernel): nat {
    Num(q.outbox, IsRequest) + Num(q.inbox, IsAnswer)
  }

  function Locks(q: Kernel): nat {
    Num(q.inbox, IsCounted) + Num(q.outbox, IsDone)
  }

  /** The standing of `k` with the pager changes only in ways that its kernel already agrees with. */
  ghost predicate Agrees(run: Run, run': Run, k: Client, q: Kernel) {
    && (k in run.page.entry.access ==> k in run'.page.entry.access || Holds(q) == 0)
    && (k in run.page.hist.writers ==> k in run'.page.hist.writers || !MayWrite(q))
  }

  /** If `k` counts as being revoked now, it did before. */
  ghost predicate StillRevoked(run: Run, run': Run, k: Client) {
    Settled(run'.pc) && run'.page.entry.wait != [] && k in run'.page.entry.access ==>
      Settled(run.pc) && run.page.entry.wait != [] && k in run.page.entry.access
  }

  lemma SendNothing(run: Run, run': Run, latest: Content, k: Client, q: Kernel)
    requires Taken(run, latest, k, q) && Agrees(run, run', k, q) && StillRevoked(run, run', k)
    requires Requests(q) + Num(run'.page.entry.wait, Of(k)) <= 1
    requires Count(run'.page, k) == Locks(q)
    ensures Deliverable(run', latest, k, q, [])
  {
  }

  lemma SendFlush(run: Run, run': Run, latest: Content, k: Client, q: Kernel)
    requires Taken(run, latest, k, q) && Agrees(run, run', k, q)
    requires Requests(q) + Num(run'.page.entry.wait, Of(k)) <= 1
    requires Count(run'.page, k) == Locks(q) + 1
    ensures Deliverable(run', latest, k, q, [Flush])
  {
    FlushCounts();
  }

  lemma SendError1(run: Run, run': Run, latest: Content, k: Client, q: Kernel, code: int)
    requires Taken(run, latest, k, q) && Agrees(run, run', k, q) && StillRevoked(run, run', k)
    requires Requests(q) + Num(run'.page.entry.wait, Of(k)) == 0
    requires Count(run'.page, k) == Locks(q)
    ensures Deliverable(run', latest, k, q, [Error(code)])
  {
    var m := Error(code);
    NumOne(m, IsAnswer);
    NumOne(m, IsSupply);
    NumOne(m, IsWritable);
    NumOne(m, IsGrant);
    NumOne(m, IsCounted);
    LastOne(m, MsgMark);
  }

  /** `j` is a client whose messages are settled, except that the pager has just taken a request of `k`. */
  ghost predicate Party(run: Run, latest: Content, k: Client, j: Client, q: Kernel) {
    && Taken(run, latest, j, q)
    && Requests(q) + Num(run.page.entry.wait, Of(j)) <= (if j == k then 0 else 1)
    && Count(run.page, j) == Locks(q)
  }

  lemma Enqueued(pg: Page, k: Client, write: bool, j: Client)
    ensures Num(Enqueue(pg, k, write).entry.wait, Of(j)) == Num(pg.entry.wait, Of(j)) + if j == k then 1 else 0
  {
    NumPush(pg.entry.wait, Waiter(k, write), Of(j));
  }

  /** internal_lock_completed sends nothing before the backing store has been called. */
  lemma CompleteDelivers(run: Run, mid: Run, latest: Content, k: Client, j: Client, q: Kernel)
    requires Taken(run, latest, j, q) && mid.pc.Idle? && run.pc.Idle?
    requires !mid.page.entry.invalid && Box(mid.page, j) == []
    requires mid.page.entry.access == run.page.entry.access && mid.page.hist.writers == run.page.hist.writers
    requires run.page.entry.wait == [] ==> mid.page.entry.wait == [] || j !in run.page.entry.access
    requires Requests(q) + Num(mid.page.entry.wait, Of(j)) <= 1 && Count(mid.page, j) == Locks(q)
    requires j == k && mid.page.entry.wait != [] && k in mid.page.entry.access && !mid.page.entry.writeGranted ==>
      Clean(q)
    ensures var t := Continue(mid, CompleteInternal(mid.page, k), None);
            !t.pc.Halted? ==> Deliverable(t, latest, j, q, Box(t.page, j))
  {
    var t := Continue(mid, CompleteInternal(mid.page, k), None);
    if !t.pc.Halted? {
      assert t.page == mid.page || t.page == Evict(mid.page, k);
      assert Box(t.page, j) == [];
      SendNothing(run, t, latest, j, q);
    }
  }

  /** Everybody on ACCESSLIST is flushed, after a change to `mid` that sends nothing. */
  lemma FlushAllDelivers(run: Run, t: Run, mid: Page, latest: Content, j: Client, q: Kernel)
    requires Taken(run, latest, j, q) && Agrees(run, run.(page := mid), j, q)
    requires t.page == FlushAll(mid, mid.entry.access) && Box(mid, j) == []
    requires Requests(q) + Num(mid.entry.wait, Of(j)) <= 1 && Count(mid, j) == Locks(q)
    ensures Deliverable(t, latest, j, q, Box(t.page, j))
  {
    FlushSends(mid, mid.entry.access, j);
    assert Box(t.page, j) == if j in mid.entry.access then [Flush] else [];
    if j in mid.entry.access {
      SendFlush(run, t, latest, j, q);
    } else {
      SendNothing(run, t, latest, j, q);
    }
  }

  lemma RequestShape(run: Run, k: Client, write: bool)
    requires PagerInv(run) && run.pc.Idle?
    ensures var pg := run.page;
            var t := Step(run, Request(k, write));
            var i := FirstError(pg.nextError, k);
            var left := DropAccess(pg, k);
            if i < |pg.nextError| then
              t == Run(Refuse(pg.(nextError := pg.nextError[..i] + pg.nextError[i + 1..]), k, pg.nextError[i].code),
                Idle, None)
            else if k in pg.entry.access && pg.entry.wait != [] then
              t == Continue(run, CompleteInternal(Enqueue(pg, k, write), k), None)
            else if pg.entry.wait == [] && (left.entry.writeGranted || (write && left.entry.access != {})) then
              t.page == FlushAll(Enqueue(left, k, write), left.entry.access)
            else t.page == Enqueue(left, k, write) && (t.pc.Paging? || pg.entry.wait != [])
  {
  }

  lemma RefusalDelivers(run: Run, t: Run, cut: Page, latest: Content, k: Client, code: int, j: Client, q: Kernel)
    requires Party(run, latest, k, j, q) && run.page.box == map[]
    requires cut == run.page.(nextError := cut.nextError) && t == Run(Refuse(cut, k, code), Idle, None) && run.pc.Idle?
    ensures Deliverable(t, latest, j, q, Box(t.page, j))
  {
    if j == k {
      SendError1(run, t, latest, j, q, code);
      assert Box(t.page, j) == [Error(code)];
    } else {
      SendNothing(run, t, latest, j, q);
      assert Box(t.page, j) == [];
    }
  }

  lemma RequestDelivers(run: Run, latest: Content, k: Client, write: bool, j: Client, q: Kernel)
    requires PagerInv(run) && run.pc.Idle? && Party(run, latest, k, j, q) && (j == k ==> Clean(q))
    ensures var t := Step(run, Request(k, write));
            !t.pc.Halted? ==> Deliverable(t, latest, j, q, Box(t.page, j))
  {
    RequestShape(run, k, write);
    var pg := run.page;
    var t := Step(run, Request(k, write));
    var i := FirstError(pg.nextError, k);
    var left := DropAccess(pg, k);
    Enqueued(left, k, write, j);
    if i < |pg.nextError| {
      RefusalDelivers(run, t, pg.(nextError := pg.nextError[..i] + pg.nextError[i + 1..]), latest, k,
        pg.nextError[i].code, j, q);
    } else if k in pg.entry.access && pg.entry.wait != [] {
      Enqueued(pg, k, write, j);
      CompleteDelivers(run, run.(page := Enqueue(pg, k, write)), latest, k, j, q);
    } else if pg.entry.wait == [] && (left.entry.writeGranted || (write && left.entry.access != {})) {
      FlushAllDelivers(run, t, Enqueue(left, k, write), latest, j, q);
    } else {
      SendNothing(run, t, latest, j, q);
    }
  }

  lemma UnlockShape(run: Run, k: Client)
    requires run.pc.Idle?
    ensures var pg := run.page;
            var t := Step(run, AskUnlock(k));
            var asked := Enqueue(pg, k, true);
            || t.pc.Halted?
            || t == Run(pg, Idle, None)
            || (t == Run(asked, Idle, None) && pg.entry.wait != [])
            || t == Run(FlushAll(asked, asked.entry.access), Idle, None)
            || t == Run(asked, Unlocking, None)
  {
    assert FlushAll(Enqueue(run.page, k, true), run.page.entry.access) ==
           FlushAll(Enqueue(run.page, k, true), Enqueue(run.page, k, true).entry.access);
  }

  lemma UnlockDelivers(run: Run, latest: Content, k: Client, j: Client, q: Kernel)
    requires PagerInv(run) && run.pc.Idle? && Party(run, latest, k, j, q)
    ensures var t := Step(run, AskUnlock(k));
            !t.pc.Halted? ==> Deliverable(t, latest, j, q, Box(t.page, j))
  {
    UnlockShape(run, k);
    var t := Step(run, AskUnlock(k));
    var asked := Enqueue(run.page, k, true);
    Enqueued(run.page, k, true, j);
    if t == Run(FlushAll(asked, asked.entry.access), Idle, None) {
      FlushAllDelivers(run, t, asked, latest, j, q);
    } else if !t.pc.Halted? {
      SendNothing(run, t, latest, j, q);
    }
  }

  lemma CompletedDelivers(run: Run, latest: Content, k: Client, j: Client, q: Kernel)
    requires PagerInv(run) && run.pc.Idle? && Taken(run, latest, j, q)
    requires Requests(q) + Num(run.page.entry.wait, Of(j)) <= 1
    requires Count(run.page, j) == Locks(q) + if j == k then 1 else 0
    requires j == k && Count(run.page, k) == 1 && run.page.entry.wait != [] && k in run.page.entry.access ==>
      Holds(q) == 0
    ensures var t := Step(run, Completed(k));
            !t.pc.Halted? ==> Deliverable(t, latest, j, q, Box(t.page, j))
  {
    var pg := run.page;
    var t := Step(run, Completed(k));
    if Count(pg, k) == 1 && pg.locks[k].internal {
      var closed := pg.(locks := pg.locks - {k});
      assert Count(closed, j) == Locks(q);
      CompleteDelivers(run, run.(page := closed), latest, k, j, q);
    } else if !t.pc.Halted? {
      assert t.page.entry == pg.entry && t.page.hist == pg.hist && Count(t.page, j) == Locks(q);
      SendNothing(run, t, latest, j, q);
    }
  }

  // ----- service_WAITLIST, seen by one client

  lemma SupplyCounts(m: Msg, flush: bool)
    requires m.Supply?
    ensures var ms := [m] + if flush then [Flush] else [];
            && Num(ms, IsAnswer) == 1 && Num(ms, IsSupply) == 1 && Num(ms, IsGrant) == 0
            && Num(ms, IsWritable) == (if m.readOnly then 0 else 1)
            && Num(ms, IsCounted) == (if flush then 1 else 0)
            && Last(ms, MsgMark) == (if flush then Closed else Had)
  {
    NumOne(m, IsAnswer);
    NumOne(m, IsSupply);
    NumOne(m, IsWritable);
    NumOne(m, IsGrant);
    NumOne(m, IsCounted);
    LastOne(m, MsgMark);
    FlushCounts();
    if flush {
      PushMsgs([m], [Flush]);
    } else {
      assert [m] + [] == [m];
    }
  }

  /** The pager after serving `batch`: who has access, who waits, who may write. */
  ghost predicate Serviced(mid: Page, batch: seq<Waiter>, rest: seq<Waiter>, write: bool, r: Page) {
    && r.entry.access == mid.entry.access + Clients(batch)
    && r.entry.wait == rest
    && r.hist.writers == if write then Clients(batch) else {}
  }

  lemma ServedDelivers(run: Run, t: Run, mid: Page, batch: seq<Waiter>, rest: seq<Waiter>, write: bool, m: Msg,
                       latest: Content, j: Client, q: Kernel)
    requires Taken(run, latest, j, q) && Agrees(run, run.(page := mid), j, q) && mid.hist.writers == {}
    requires Clients(batch) !! mid.entry.access
    requires Requests(q) + Num(batch, Of(j)) + Num(rest, Of(j)) <= 1 && Count(mid, j) == Locks(q)
    requires m.Supply? && m.data == latest && m.readOnly == !write
    requires Serviced(mid, batch, rest, write, t.page)
    requires Box(t.page, j) == Served(batch, rest, m, j in t.page.entry.access, j)
    requires Count(t.page, j) == Count(mid, j) + if rest != [] && j in t.page.entry.access then 1 else 0
    ensures Deliverable(t, latest, j, q, Box(t.page, j))
  {
    OfClients(batch, j);
    if Num(batch, Of(j)) == 1 {
      SupplyCounts(m, rest != []);
      assert j in t.page.entry.access;
      assert Box(t.page, j) == [m] + if rest != [] then [Flush] else [];
    } else if rest != [] && j in t.page.entry.access {
      assert Box(t.page, j) == [Flush];
      SendFlush(run, t, latest, j, q);
    } else {
      assert Box(t.page, j) == [];
      SendNothing(run, t, latest, j, q);
    }
  }

  lemma ServiceDelivers(run: Run, t: Run, mid: Page, data: Content, allowWrite: bool, dealloc: bool, out: bool,
                        latest: Content, j: Client, q: Kernel)
    requires Taken(run, latest, j, q) && Agrees(run, run.(page := mid), j, q) && mid.hist.writers == {}
    requires mid.entry.wait != []
    requires mid.entry.access == {} || (|mid.entry.wait| == 1 && mid.entry.wait[0].client !in mid.entry.access)
    requires Requests(q) + Num(mid.entry.wait, Of(j)) <= 1 && Count(mid, j) == Locks(q) && Box(mid, j) == []
    requires data == latest
    requires var r := Service(mid, data, allowWrite, dealloc); t.page == r.(entry := r.entry.(pagingOut := out))
    ensures Deliverable(t, latest, j, q, Box(t.page, j))
  {
    var ws := mid.entry.wait;
    var n := BatchSize(ws, allowWrite);
    var write := WriteBatch(ws, allowWrite);
    ServiceEffect(mid, data, allowWrite, dealloc);
    var d := ServiceSends(mid, data, allowWrite, dealloc, j);
    var r := Service(mid, data, allowWrite, dealloc);
    BatchApart(mid.entry, n);
    assert Box(t.page, j) == Box(r, j) && Count(t.page, j) == Count(r, j);
    assert Serviced(mid, ws[..n], ws[n..], write, t.page);
    ServedDelivers(run, t, mid, ws[..n], ws[n..], write, Supply(data, d, !write), latest, j, q);
  }

  lemma BatchApart(e: Entry, n: nat)
    requires n <= |e.wait|
    requires e.access == {} || (|e.wait| == 1 && e.wait[0].client !in e.access)
    ensures Clients(e.wait[..n]) !! e.access
  {
    forall c | c in Clients(e.wait[..n]) ensures c !in e.access {
      var w :| w in e.wait[..n] && w.client == c;
      assert w in e.wait;
    }
  }

  lemma ReturnDelivers(run: Run, latest: Content, k: Client, v: Content, dirty: bool, kernelCopy: bool, j: Client,
      q: Kernel)
    requires PagerInv(run) && run.pc.Idle? && k != MACH_PORT_DEAD && Taken(run, latest, j, q)
    requires Requests(q) + Num(run.page.entry.wait, Of(j)) <= 1 && Count(run.page, j) == Locks(q)
    requires !kernelCopy ==> v == latest && (j == k ==> Clean(q))
    ensures var t := Step(run, Return(k, v, dirty, kernelCopy));
            !t.pc.Halted? ==> Deliverable(t, latest, j, q, Box(t.page, j))
  {
    ReturnShape(run, k, v, dirty, kernelCopy);
    EvictExclusive(run.page, k);
    var t := Step(run, Return(k, v, dirty, kernelCopy));
    var left := if kernelCopy then run.page else Evict(run.page, k);
    if !t.pc.Halted? {
      ReturnLeft(run, t, left, latest, k, v, dirty, kernelCopy, j, q);
    }
  }

  lemma ReturnLeft(run: Run, t: Run, left: Page, latest: Content, k: Client, v: Content, dirty: bool, kernelCopy: bool,
      j: Client, q: Kernel)
    requires run.page.box == map[] && Taken(run, latest, j, q) && run.pc.Idle?
    requires Requests(q) + Num(run.page.entry.wait, Of(j)) <= 1 && Count(run.page, j) == Locks(q)
    requires left == if kernelCopy then run.page else Evict(run.page, k)
    requires !kernelCopy ==> v == latest && (j == k ==> Clean(q))
    requires || (&& !kernelCopy && left.entry.access == {} && left.entry.wait != [] && left.hist.writers == {}
                 && var r := Service(left, v, true, false);
                    t.page == r.(entry := r.entry.(pagingOut := dirty || r.entry.pagingOut)))
             || (&& t.page.entry.access == left.entry.access && t.page.entry.wait == left.entry.wait
                 && t.page.hist == left.hist && t.page.locks == left.locks && t.page.box == left.box)
    ensures Deliverable(t, latest, j, q, Box(t.page, j))
  {
    assert Agrees(run, run.(page := left), j, q);
    if t.page.hist == left.hist && t.page.entry.access == left.entry.access && t.page.entry.wait == left.entry.wait
       && t.page.locks == left.locks && t.page.box == left.box {
      assert Count(t.page, j) == Count(run.page, j) && Box(t.page, j) == [];
      SendNothing(run, t, latest, j, q);
    } else {
      ServiceDelivers(run, t, left, v, true, false, t.page.entry.pagingOut, latest, j, q);
    }
  }

  lemma ReadDoneDelivers(run: Run, latest: Content, err: int, data: Content, writeLock: bool, j: Client, q: Kernel)
    requires PagerInv(run) && run.pc.Paging? && Taken(run, latest, j, q)
    requires Requests(q) + Num(run.page.entry.wait, Of(j)) <= 1 && Count(run.page, j) == Locks(q)
    requires err == KERN_SUCCESS ==> data == latest
    ensures var t := Step(run, ReadDone(err, data, writeLock)); Deliverable(t, latest, j, q, Box(t.page, j))
  {
    var t := Step(run, ReadDone(err, data, writeLock));
    var noted := run.page.(entry := run.page.entry.(error := err));
    if err == KERN_SUCCESS {
      ServiceEffect(noted, data, !writeLock, true);
      ServiceDelivers(run, t, noted, data, !writeLock, true, false, latest, j, q);
    } else {
      ErrorsDeliver(run, t, noted, latest, j, q);
    }
  }

  lemma ErrorsDeliver(run: Run, t: Run, noted: Page, latest: Content, j: Client, q: Kernel)
    requires PagerInv(run) && run.pc.Paging? && Taken(run, latest, j, q)
    requires Requests(q) + Num(run.page.entry.wait, Of(j)) <= 1 && Count(run.page, j) == Locks(q)
    requires noted == run.page.(entry := run.page.entry.(error := noted.entry.error))
    requires t == Run(SendError(noted), Idle, None)
    ensures Deliverable(t, latest, j, q, Box(t.page, j))
  {
    BatchApart(noted.entry, |noted.entry.wait|);
    assert noted.entry.wait[..|noted.entry.wait|] == noted.entry.wait;
    ErrorSends(noted, noted.entry.wait, j);
    ErrorAllEffect(noted, noted.entry.wait);
    assert Box(t.page, j) == if Num(noted.entry.wait, Of(j)) == 1 then [Error(noted.entry.error)] else [];
    if Num(noted.entry.wait, Of(j)) == 1 {
      SendError1(run, t, latest, j, q, noted.entry.error);
    } else {
      SendNothing(run, t, latest, j, q);
    }
  }

  lemma FinalizeShape(pg: Page, err: int, j: Client)
    requires pg.entry.wait != [] && pg.box == map[] && pg.hist.writers == {}
    ensures var r := FinalizeUnlock(pg, err);
            var k, rest := pg.entry.wait[0].client, pg.entry.wait[1..];
            && r.entry.wait == rest && r.entry.access == pg.entry.access
            && r.hist.writers == (if err == KERN_SUCCESS then {k} else {})
            && Box(r, j) == (if j != k then []
                             else if err != KERN_SUCCESS then [Flush]
                             else [Grant] + if rest != [] then [Flush] else [])
            && Count(r, j) == Count(pg, j) + if j == k && (err != KERN_SUCCESS || rest != []) then 1 else 0
  {
  }

  lemma GrantCounts(flush: bool)
    ensures var ms := [Grant] + if flush then [Flush] else [];
            && Num(ms, IsAnswer) == 1 && Num(ms, IsSupply) == 0 && Num(ms, IsGrant) == 1 && Num(ms, IsWritable) == 0
            && Num(ms, IsCounted) == (if flush then 1 else 0)
            && Last(ms, MsgMark) == (if flush then Closed else Nothing)
  {
    NumOne(Grant, IsAnswer);
    NumOne(Grant, IsSupply);
    NumOne(Grant, IsWritable);
    NumOne(Grant, IsGrant);
    NumOne(Grant, IsCounted);
    LastOne(Grant, MsgMark);
    FlushCounts();
    if flush {
      PushMsgs([Grant], [Flush]);
    } else {
      assert [Grant] + [] == [Grant];
    }
  }

  lemma UnlockDoneDelivers(run: Run, latest: Content, err: int, j: Client, q: Kernel)
    requires PagerInv(run) && run.pc.Unlocking? && Taken(run, latest, j, q)
    requires Requests(q) + Num(run.page.entry.wait, Of(j)) <= 1 && Count(run.page, j) == Locks(q)
    ensures var t := Step(run, UnlockDone(err)); Deliverable(t, latest, j, q, Box(t.page, j))
  {
    var t := Step(run, UnlockDone(err));
    var ws := run.page.entry.wait;
    NumHead(ws, Of(j));
    FinalizeShape(run.page, err, j);
    GrantCounts(ws[1..] != []);
    if j != ws[0].client {
      SendNothing(run, t, latest, j, q);
    } else if err != KERN_SUCCESS {
      SendFlush(run, t, latest, j, q);
    }
  }

  lemma WriteDoneDelivers(run: Run, latest: Content, j: Client, q: Kernel)
    requires PagerInv(run) && run.pc.Writing? && Taken(run, latest, j, q)
    requires Guarded(run, WriteDone(KERN_SUCCESS))
    requires Requests(q) + Num(run.page.entry.wait, Of(j)) <= 1 && Count(run.page, j) == Locks(q)
    requires run.page.hist.writers == {} ==> run.pc.data == latest
    ensures var t := Step(run, WriteDone(KERN_SUCCESS)); !t.pc.Halted? && Deliverable(t, latest, j, q, Box(t.page, j))
  {
    var t := Step(run, WriteDone(KERN_SUCCESS));
    var out := run.page.(entry := run.page.entry.(invalid := false, pagingOut := false));
    if !run.pc.kernelCopy && out.entry.wait != [] {
      ServiceEffect(out, run.pc.data, true, false);
      ServiceDelivers(run, t, out, run.pc.data, true, false, false, latest, j, q);
    } else {
      SendNothing(run, t, latest, j, q);
    }
  }

  lemma LockedDelivers(run: Run, latest: Content, cs: set<Client>, keep: Keep, flush: bool, reply: bool, j: Client,
      q: Kernel)
    requires run.page.box == map[] && Taken(run, latest, j, q) && !(flush && keep.ReturnNone?)
    requires !run.pc.Halted? && !run.pc.Thrown?
    requires Requests(q) + Num(run.page.entry.wait, Of(j)) <= 1 && Count(run.page, j) == Locks(q)
    ensures var t := Step(run, Locked(cs, keep, flush, reply)); Deliverable(t, latest, j, q, Box(t.page, j))
  {
    var t := Step(run, Locked(cs, keep, flush, reply));
    var m := Lock(keep, flush, reply);
    if j in cs {
      assert Box(t.page, j) == [m];
      NumOne(m, IsAnswer);
      NumOne(m, IsSupply);
      NumOne(m, IsWritable);
      NumOne(m, IsGrant);
      NumOne(m, IsCounted);
      LastOne(m, MsgMark);
    } else {
      assert Box(t.page, j) == [];
      SendNothing(run, t, latest, j, q);
    }
  }

  // ----- one move keeps the invariant

  lemma InvTaken(run: Run, latest: Content, k: Client, q: Kernel)
    requires ClientInv(run, latest, k, q)
    ensures Taken(run, latest, k, q) && Requests(q) + Num(run.page.entry.wait, Of(k)) <= 1 &&
      Count(run.page, k) == Locks(q)
  {
  }

  lemma DeliverAt(s: Sys, ev: Event, k: Client)
    requires Enabled(s.run, ev)
    ensures At(Deliver(s, ev), k) == At(s, k).(inbox := At(s, k).inbox + Box(Step(s.run, ev).page, k))
  {
    assert NewKernel.inbox + [] == NewKernel.inbox;
  }

  /** An invalid page needs a failed write. */
  lemma StaysValid(run: Run, ev: Event)
    requires PagerInv(run) && Enabled(run, ev) && !ev.Dropped? && (ev.WriteDone? ==> ev.err == KERN_SUCCESS)
    ensures var t := Step(run, ev); !t.page.entry.invalid && t.dropping.None?
  {
    match ev
    case Request(k, write) => RequestShape(run, k, write);
    case AskUnlock(k) => UnlockShape(run, k);
    case Return(k, v, dirty, kernelCopy) => ReturnStaysValid(run, k, v, dirty, kernelCopy);
    case ReadDone(err, data, writeLock) => ReadStaysValid(run, err, data, writeLock);
    case WriteDone(err) => WriteStaysValid(run);
    case _ =>
  }

  lemma ReturnStaysValid(run: Run, k: Client, v: Content, dirty: bool, kernelCopy: bool)
    requires PagerInv(run) && run.pc.Idle?
    ensures var t := Step(run, Return(k, v, dirty, kernelCopy)); !t.page.entry.invalid && t.dropping.None?
  {
    var left := if kernelCopy || k == MACH_PORT_DEAD then run.page else Evict(run.page, k);
    if !kernelCopy && left.entry.access == {} && left.entry.wait != [] {
      ServiceEffect(left, v, true, false);
    }
  }

  lemma ReadStaysValid(run: Run, err: int, data: Content, writeLock: bool)
    requires PagerInv(run) && run.pc.Paging?
    ensures var t := Step(run, ReadDone(err, data, writeLock)); !t.page.entry.invalid && t.dropping.None?
  {
    var noted := run.page.(entry := run.page.entry.(error := err));
    var t := Step(run, ReadDone(err, data, writeLock));
    if err == KERN_SUCCESS {
      assert t.page == Service(noted, data, !writeLock, true);
      ServiceEffect(noted, data, !writeLock, true);
    } else {
      assert t.page == SendError(noted);
      ErrorAllEffect(noted, noted.entry.wait);
    }
  }

  lemma WriteStaysValid(run: Run)
    requires PagerInv(run) && run.pc.Writing?
    ensures var t := Step(run, WriteDone(KERN_SUCCESS)); !t.page.entry.invalid && t.dropping.None?
  {
    var out := run.page.(entry := run.page.entry.(invalid := false, pagingOut := false));
    if !run.pc.kernelCopy && out.entry.wait != [] {
      ServiceEffect(out, run.pc.data, true, false);
    }
  }

  lemma PagerStep(run: Run, ev: Event)
    requires PagerInv(run) && Enabled(run, ev) && Guarded(run, ev) && !ev.Dropped? &&
      (ev.WriteDone? ==> ev.err == KERN_SUCCESS)
    ensures var t := Step(run, ev); !t.pc.Halted? ==> PagerInv(t.(page := t.page.(box := map[])))
  {
    OrderlyStep(run, ev);
    ExclusiveStep(run, ev);
    StaysValid(run, ev);
  }

  /** If the messages of a step may be delivered to everybody, the invariant holds afterwards. */
  lemma DeliverKeeps(s: Sys, ev: Event)
    requires PagerInv(s.run) && Enabled(s.run, ev) && Guarded(s.run, ev) && !ev.Dropped? &&
      (ev.WriteDone? ==> ev.err == KERN_SUCCESS)
    requires var t := Step(s.run, ev);
             !t.pc.Halted? ==> forall k :: Deliverable(t, s.latest, k, At(s, k), Box(t.page, k))
    ensures var s' := Deliver(s, ev);
            && s'.latest == s.latest && s'.store == s.store && s'.run.pc == Step(s.run, ev).pc
            && (forall k :: Unsaved(At(s', k)) <==> Unsaved(At(s, k)))
            && (!s'.run.pc.Halted? ==>
                  PagerInv(s'.run) && forall k :: ClientInv(s'.run, s'.latest, k, At(s', k)))
  {
    var t := Step(s.run, ev);
    var s' := Deliver(s, ev);
    PagerStep(s.run, ev);
    forall k
      ensures Unsaved(At(s', k)) <==> Unsaved(At(s, k))
      ensures !t.pc.Halted? ==> ClientInv(s'.run, s'.latest, k, At(s', k))
    {
      DeliverAt(s, ev, k);
      if !t.pc.Halted? {
        Delivered(t, s.latest, k, At(s, k), Box(t.page, k));
        SameClient(t, s'.run, s.latest, k, At(s', k));
      }
    }
  }

  lemma SameClient(run: Run, run': Run, latest: Content, k: Client, q: Kernel)
    requires ClientInv(run, latest, k, q) && run' == run.(page := run.page.(box := map[]))
    ensures ClientInv(run', latest, k, q)
  {
    assert Count(run'.page, k) == Count(run.page, k);
  }

  /** Nobody can have unsaved data when nobody may write. */
  lemma NobodyUnsaved(s: Sys)
    requires forall k :: ClientInv(s.run, s.latest, k, At(s, k))
    requires s.run.page.hist.writers == {}
    ensures forall k :: !Unsaved(At(s, k))
  {
    forall k ensures !Unsaved(At(s, k)) {
      assert ClientInv(s.run, s.latest, k, At(s, k));
    }
  }

  lemma BackingDelivers(s: Sys, ev: Event, k: Client)
    requires Inv(s) && Allowed(s, Backing(ev))
    requires s.run.page.hist.writers == {} ==>
      if s.run.pc.Writing? then s.run.pc.data == s.latest else s.store == s.latest
    ensures var t := Step(s.run, ev); !t.pc.Halted? && Deliverable(t, s.latest, k, At(s, k), Box(t.page, k))
  {
    var q := At(s, k);
    InvTaken(s.run, s.latest, k, q);
    match ev
    case ReadDone(err, data, writeLock) => ReadDoneDelivers(s.run, s.latest, err, data, writeLock, k, q);
    case UnlockDone(err) => UnlockDoneDelivers(s.run, s.latest, err, k, q);
    case WriteDone(err) => WriteDoneDelivers(s.run, s.latest, k, q);
    case _ =>
  }

  lemma BackingKeeps(s: Sys, ev: Event)
    requires Inv(s) && Allowed(s, Backing(ev))
    ensures Inv(Do(s, Backing(ev)))
  {
    if s.run.page.hist.writers == {} {
      NobodyUnsaved(s);
    }
    forall k ensures var t := Step(s.run, ev); !t.pc.Halted? && Deliverable(t, s.latest, k, At(s, k), Box(t.page, k)) {
      BackingDelivers(s, ev, k);
    }
    DeliverKeeps(s, ev);
    EndsIdle(s.run, ev);
    var t := Deliver(s, ev);
    var store := if ev.WriteDone? then s.run.pc.data else s.store;
    if forall k :: !Unsaved(At(t, k)) {
      assert forall k :: !Unsaved(At(s, k));
      assert StoreInv(s);
    }
    Stored(t, store);
    assert Do(s, Backing(ev)) == t.(store := store);
  }

  lemma Stored(t: Sys, store: Content)
    requires PagerInv(t.run) && (forall k :: ClientInv(t.run, t.latest, k, At(t, k))) && !t.run.pc.Writing?
    requires (forall k :: !Unsaved(At(t, k))) ==> store == t.latest
    ensures Inv(t.(store := store))
  {
    assert forall k :: At(t.(store := store), k) == At(t, k);
  }

  lemma EndsIdle(run: Run, ev: Event)
    requires Enabled(run, ev) && (ev.ReadDone? || ev.UnlockDone? || ev.WriteDone?)
    ensures !Step(run, ev).pc.Writing?
  {
  }

  lemma ExternalKeeps(s: Sys, cs: set<Client>, keep: Keep, flush: bool, reply: bool)
    requires Inv(s) && Allowed(s, External(cs, keep, flush, reply))
    ensures Inv(Do(s, External(cs, keep, flush, reply)))
  {
    var ev := Locked(cs, keep, flush, reply);
    var t := Step(s.run, ev);
    forall k ensures Deliverable(t, s.latest, k, At(s, k), Box(t.page, k)) {
      InvTaken(s.run, s.latest, k, At(s, k));
      LockedDelivers(s.run, s.latest, cs, keep, flush, reply, k, At(s, k));
    }
    DeliverKeeps(s, ev);
  }

  /** Everybody can be sent what the pager sends when it takes the first call of `k`. */
  lemma HandleDelivers(run: Run, latest: Content, k: Client, q: Kernel, j: Client, qj: Kernel)
    requires PagerInv(run) && run.pc.Idle? && k != MACH_PORT_DEAD
    requires ClientInv(run, latest, k, q) && q.outbox != []
    requires if j == k then qj == q.(outbox := q.outbox[1..]) else ClientInv(run, latest, j, qj)
    ensures var t := Step(run, EventOf(k, q.outbox[0]));
            !t.pc.Halted? ==> Deliverable(t, latest, j, qj, Box(t.page, j))
  {
    if j != k {
      InvTaken(run, latest, j, qj);
    }
    match q.outbox[0]
    case WantPage(write) =>
      TakeWantPage(run, latest, k, q);
      RequestDelivers(run, latest, k, write, j, qj);
    case WantWrite =>
      TakeWantWrite(run, latest, k, q);
      UnlockDelivers(run, latest, k, j, qj);
    case GiveBack(v, dirty, kernelCopy) =>
      TakeGiveBack(run, latest, k, q);
      ReturnDelivers(run, latest, k, v, dirty, kernelCopy, j, qj);
    case LockDone =>
      TakeLockDone(run, latest, k, q);
      CompletedDelivers(run, latest, k, j, qj);
  }

  lemma HandleKeeps(s: Sys, k: Client)
    requires Inv(s) && !s.run.pc.Halted? && Allowed(s, Handle(k))
    ensures Inv(Do(s, Handle(k)))
  {
    var q := At(s, k);
    var popped := Put(s, k, q.(outbox := q.outbox[1..]));
    var ev := EventOf(k, q.outbox[0]);
    var t := Step(s.run, ev);
    forall j ensures !t.pc.Halted? ==> Deliverable(t, s.latest, j, At(popped, j), Box(t.page, j)) {
      assert ClientInv(s.run, s.latest, k, q) && ClientInv(s.run, s.latest, j, At(s, j));
      HandleDelivers(s.run, s.latest, k, q, j, At(popped, j));
    }
    DeliverKeeps(popped, ev);
    var s' := Deliver(popped, ev);
    if !t.pc.Halted? && forall j :: !Unsaved(At(s', j)) {
      HandleStore(s, k, popped);
    }
  }

  /** The backing store has the latest version, or gets it, unless somebody has unsaved data. */
  lemma HandleStore(s: Sys, k: Client, popped: Sys)
    requires Inv(s) && !s.run.pc.Halted? && Allowed(s, Handle(k))
    requires popped == Put(s, k, At(s, k).(outbox := At(s, k).outbox[1..]))
    requires forall j :: !Unsaved(At(popped, j))
    ensures var t := Step(s.run, EventOf(k, At(s, k).outbox[0]));
            !t.pc.Halted? ==> if t.pc.Writing? then t.pc.data == s.latest else s.store == s.latest
  {
    var q := At(s, k);
    assert ClientInv(s.run, s.latest, k, q);
    PopCall(q.outbox);
    var c := q.outbox[0];
    assert At(popped, k) == q.(outbox := q.outbox[1..]);
    if IsDirty(c) {
      TakeGiveBack(s.run, s.latest, k, q);
    } else {
      assert !Unsaved(q);
      forall j ensures !Unsaved(At(s, j)) {
        assert j == k || At(popped, j) == At(s, j);
      }
      NotWriting(s.run, EventOf(k, c));
    }
  }

  lemma NotWriting(run: Run, ev: Event)
    requires run.pc.Idle? && Enabled(run, ev) && (ev.Return? ==> !ev.dirty)
    ensures !Step(run, ev).pc.Writing?
  {
  }

  lemma KernelKeeps(s: Sys, k: Client, q: Kernel)
    requires Inv(s) && !s.run.pc.Halted?
    requires ClientInv(s.run, s.latest, k, q) && (Unsaved(q) <==> Unsaved(At(s, k)))
    ensures Inv(Put(s, k, q))
  {
    var s' := Put(s, k, q);
    forall j ensures ClientInv(s'.run, s'.latest, j, At(s', j)) && (Unsaved(At(s', j)) <==> Unsaved(At(s, j))) {
      assert j == k || At(s', j) == At(s, j);
    }
    if forall j :: !Unsaved(At(s', j)) {
      assert forall j :: !Unsaved(At(s, j));
    }
  }

  lemma ModifyKeeps(s: Sys, k: Client)
    requires Inv(s) && !s.run.pc.Halted? && Allowed(s, Modify(k))
    ensures Inv(Do(s, Modify(k)))
  {
    var q := At(s, k);
    assert ClientInv(s.run, s.latest, k, q) && k in s.run.page.hist.writers;
    var s' := Do(s, Modify(k));
    SoleMember(s.run.page.entry.access, k);
    forall j ensures ClientInv(s'.run, s'.latest, j, At(s', j)) {
      ModifyEach(s, k, j);
    }
    assert Unsaved(At(s', k));
  }

  lemma ModifyEach(s: Sys, k: Client, j: Client)
    requires Allowed(s, Modify(k)) && ClientInv(s.run, s.latest, k, At(s, k)) && ClientInv(s.run, s.latest, j, At(s, j))
    requires s.run.page.entry.access == {k} && s.run.page.hist.writers == {k}
    ensures var s' := Do(s, Modify(k)); ClientInv(s'.run, s'.latest, j, At(s', j))
  {
    if j == k {
      ModifyOwn(s.run, s.latest, k, At(s, k));
    } else {
      ModifyOther(s.run, s.latest, j, At(s, j));
    }
  }

  lemma ModifyOwn(run: Run, latest: Content, k: Client, q: Kernel)
    requires ClientInv(run, latest, k, q) && q.page.Some? && q.page.value.writable
    ensures ClientInv(run, latest + 1, k, q.(page := Some(Copy(latest + 1, true, true))))
  {
    NoGive(q.outbox);
    NoSupply(q.inbox);
  }

  lemma ModifyOther(run: Run, latest: Content, k: Client, q: Kernel)
    requires ClientInv(run, latest, k, q) && k !in run.page.entry.access && k !in run.page.hist.writers
    ensures ClientInv(run, latest + 1, k, q)
  {
    NoSupply(q.inbox);
    LastDirtyNum(q.outbox, |q.outbox|);
    forall i | 0 <= i < |q.outbox| && IsGive(q.outbox[i]) ensures false {
      NumMember(q.outbox, IsGive, i, |q.outbox|);
    }
  }

  lemma NoSupply(ms: seq<Msg>)
    requires Num(ms, IsSupply) == 0
    ensures forall i :: 0 <= i < |ms| ==> !ms[i].Supply?
  {
    forall i | 0 <= i < |ms| ensures !ms[i].Supply? {
      if ms[i].Supply? { NumMember(ms, IsSupply, i, |ms|); }
    }
  }

  lemma MoveKeeps(s: Sys, m: Move)
    requires Inv(s) && Allowed(s, m) && !s.run.pc.Halted?
    ensures Inv(Do(s, m))
  {
    match m
    case Ask(k, write) =>
      assert ClientInv(s.run, s.latest, k, At(s, k));
      AskKeeps(s.run, s.latest, k, At(s, k), WantPage(write));
      KernelKeeps(s, k, At(s, k).(outbox := At(s, k).outbox + [WantPage(write)]));
    case AskWrite(k) =>
      assert ClientInv(s.run, s.latest, k, At(s, k));
      AskKeeps(s.run, s.latest, k, At(s, k), WantWrite);
      KernelKeeps(s, k, At(s, k).(outbox := At(s, k).outbox + [WantWrite]));
    case Modify(k) => ModifyKeeps(s, k);
    case GiveUp(k, silently) => GiveUpMove(s, k, silently);
    case Receive(k, precious) => ReceiveMove(s, k, precious);
    case Handle(k) => HandleKeeps(s, k);
    case Backing(ev) => BackingKeeps(s, ev);
    case External(cs, keep, flush, reply) => ExternalKeeps(s, cs, keep, flush, reply);
    case Depart(k) => DepartKeeps(s, k);
  }

  /** drop_client of a kernel that has nothing to do with the page takes it off ACCESSLIST. */
  lemma DepartStep(run: Run, k: Client)
    requires PagerInv(run) && run.pc.Idle? && k !in run.page.locks
    ensures Step(run, Dropped(k)) == Run(DropAccess(run.page, k), Idle, None)
  {
    assert run.page.locks - {k} == run.page.locks;
  }

  lemma DepartClient(run: Run, latest: Content, k: Client, j: Client, q: Kernel)
    requires ClientInv(run, latest, j, q) && run.pc.Idle? &&
      (j == k ==> q.page.None? && q.inbox == [] && q.outbox == [])
    ensures ClientInv(run.(page := DropAccess(run.page, k)), latest, j, q)
  {
  }

  lemma DepartEach(s: Sys, k: Client, j: Client)
    requires PagerInv(s.run) && Allowed(s, Depart(k)) && ClientInv(s.run, s.latest, j, At(s, j))
    ensures var s' := Do(s, Depart(k)); ClientInv(s'.run, s'.latest, j, At(s', j)) && At(s', j) == At(s, j)
  {
    DepartStep(s.run, k);
    DeliverAt(s, Dropped(k), j);
    assert At(s, j).inbox + [] == At(s, j).inbox;
    DepartClient(s.run, s.latest, k, j, At(s, j));
    SameClient(s.run.(page := DropAccess(s.run.page, k)), Do(s, Depart(k)).run, s.latest, j, At(s, j));
  }

  lemma DepartKeeps(s: Sys, k: Client)
    requires Inv(s) && Allowed(s, Depart(k)) && !s.run.pc.Halted?
    ensures Inv(Do(s, Depart(k)))
  {
    var ev, s' := Dropped(k), Do(s, Depart(k));
    DepartStep(s.run, k);
    OrderlyStep(s.run, ev);
    ExclusiveStep(s.run, ev);
    forall j ensures ClientInv(s'.run, s'.latest, j, At(s', j)) && At(s', j) == At(s, j) {
      DepartEach(s, k, j);
    }
    if forall j :: !Unsaved(At(s', j)) {
      assert forall j :: !Unsaved(At(s, j));
    }
  }

  lemma GiveUpMove(s: Sys, k: Client, silently: bool)
    requires Inv(s) && Allowed(s, GiveUp(k, silently)) && !s.run.pc.Halted?
    ensures Inv(Do(s, GiveUp(k, silently)))
  {
    var q := At(s, k);
    assert ClientInv(s.run, s.latest, k, q);
    GiveUpKeeps(s.run, s.latest, k, q, silently);
    var back := if silently then [] else [GiveBack(q.page.value.version, q.page.value.dirty, false)];
    KernelKeeps(s, k, q.(page := None, outbox := q.outbox + back));
  }

  lemma ReceiveMove(s: Sys, k: Client, precious: bool)
    requires Inv(s) && Allowed(s, Receive(k, precious)) && !s.run.pc.Halted?
    ensures Inv(Do(s, Receive(k, precious)))
  {
    var q := At(s, k);
    assert ClientInv(s.run, s.latest, k, q);
    if q.inbox[0].Lock? {
      ReceiveLockKeeps(s.run, s.latest, k, q, precious);
    } else {
      ReceiveAnswerKeeps(s.run, s.latest, k, q, precious);
    }
    KernelKeeps(s, k, Process(q, precious));
  }

  // ----- every run

  lemma StartInv(v: Content)
    ensures Inv(Start(v))
  {
    forall k ensures ClientInv(Init, v, k, NewKernel) {
      assert Tail(NewKernel) == Nothing;
    }
  }

  lemma {:induction false} RunKeepsInv(v: Content, ms: seq<Move>)
    requires Lawful(Start(v), ms)
    ensures Inv(After(Start(v), ms))
    decreases |ms|
  {
    if ms == [] {
      StartInv(v);
    } else {
      var before := ms[..|ms| - 1];
      RunKeepsInv(v, before);
      var s := After(Start(v), before);
      if !s.run.pc.Halted? {
        MoveKeeps(s, ms[|ms| - 1]);
      } else {
        HaltIsFinal(s, ms[|ms| - 1]);
      }
    }
  }

  lemma HaltIsFinal(s: Sys, m: Move)
    requires s.run.pc.Halted? && Allowed(s, m)
    ensures Do(s, m).run.pc.Halted?
  {
  }

  /** Every page that is handed out, and every copy a kernel has, is the latest version; a kernel that
      may write is the only one with a copy; and no kernel is sent a page it already has. */
  lemma OnlyLatestVersions(v: Content, ms: seq<Move>)
    requires Lawful(Start(v), ms) && !After(Start(v), ms).run.pc.Halted?
    ensures var s := After(Start(v), ms);
            && (forall k, i :: 0 <= i < |At(s, k).inbox| && At(s, k).inbox[i].Supply? ==>
                  At(s, k).inbox[i].data == s.latest && At(s, k).page.None?)
            && (forall k :: At(s, k).page.Some? ==> At(s, k).page.value.version == s.latest)
            && (forall k, j :: At(s, k).page.Some? && At(s, k).page.value.writable && j != k ==> At(s, j).page.None?)
  {
    RunKeepsInv(v, ms);
    var s := After(Start(v), ms);
    forall k, i | 0 <= i < |At(s, k).inbox| && At(s, k).inbox[i].Supply?
      ensures At(s, k).inbox[i].data == s.latest && At(s, k).page.None?
    {
      assert ClientInv(s.run, s.latest, k, At(s, k));
      NumMember(At(s, k).inbox, IsSupply, i, |At(s, k).inbox|);
    }
    forall k | At(s, k).page.Some? ensures At(s, k).page.value.version == s.latest {
      assert ClientInv(s.run, s.latest, k, At(s, k));
    }
    forall k, j | At(s, k).page.Some? && At(s, k).page.value.writable && j != k ensures At(s, j).page.None? {
      assert ClientInv(s.run, s.latest, k, At(s, k)) && ClientInv(s.run, s.latest, j, At(s, j));
      SoleMember(s.run.page.entry.access, k);
    }
  }
}
