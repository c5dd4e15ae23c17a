/**
The part of the pager's state that concerns one page, and what each critical
section of the pager's handlers (libpager/pagemap.cc) does to it.

A critical section is the stretch of a handler that runs without releasing the
pager's lock.  Where a handler drops the lock around a backing-store call, its
first section ends with an `Op` that names the call, and a second section takes
the result.
*/
module PageSpec {

  /** A client kernel, known by its memory control port. */
  type Client = nat

  /** The contents of a page; two different contents are two different numbers. */
  type Content = nat

  const KERN_SUCCESS: int := 0
  const MACH_PORT_DEAD: Client := 0xFFFF_FFFF

  datatype Waiter = Waiter(client: Client, write: bool)

  /** What the pagemap stores for one page. */
  datatype Entry = Entry(
    access: set<Client>,
    wait: seq<Waiter>,
    pagingOut: bool,
    writeGranted: bool,
    invalid: bool,
    error: int
  )

  const EmptyEntry := Entry({}, [], false, false, false, KERN_SUCCESS)

  datatype Keep = ReturnNone | ReturnDirty | ReturnAll

  /** The messages the pager sends to a client kernel about one page. */
  datatype Msg =
    | Supply(data: Content, dealloc: bool, readOnly: bool)
    | Error(code: int)
    | Grant                                       // a lock request that lifts the write prohibition
    | Lock(keep: Keep, flush: bool, reply: bool)  // `reply`: completion wanted for exactly this page

  const Flush := Lock(ReturnAll, true, true)

  datatype LockRecord = LockRecord(count: nat, internal: bool)

  datatype LateError = LateError(client: Client, code: int)

  /** How a request was disposed of.  `Answered` and `Deferred` dispose of a WAITLIST entry;
      `Refused` is an error sent to a client without consulting WAITLIST. */
  datatype Reply =
    | Answered(waiter: Waiter, msg: Msg)
    | Deferred(waiter: Waiter)                    // flushed, with the error left on NEXTERROR
    | Refused(client: Client, msg: Msg)

  /** Bookkeeping that the pager itself does not keep: the clients given write access and not
      since taken off ACCESSLIST, every WAITLIST entry ever made, and every disposal. */
  datatype History = History(writers: set<Client>, asked: seq<Waiter>, replies: seq<Reply>)

  /** One page: its pagemap entry, its records in `outstanding_locks`, its part of NEXTERROR, the
      messages sent about it to each client, and the history of all this. */
  datatype Page = Page(
    entry: Entry,
    locks: map<Client, LockRecord>,
    nextError: seq<LateError>,
    box: map<Client, seq<Msg>>,
    hist: History
  )

  const EmptyPage := Page(EmptyEntry, map[], [], map[], History({}, [], []))

  /** The backing-store call a critical section ends with. */
  datatype Op = Done | PageIn | Unlock

  /** A failed `assert` is `Stop`. */
  datatype Outcome = Go(page: Page, op: Op) | Stop

  // ----- primitive updates

  function Box(pg: Page, c: Client): seq<Msg> {
    if c in pg.box then pg.box[c] else []
  }

  function Count(pg: Page, c: Client): nat {
    if c in pg.locks then pg.locks[c].count else 0
  }

  function Internal(pg: Page, c: Client): bool {
    c in pg.locks && pg.locks[c].internal
  }

  function Post(pg: Page, c: Client, m: Msg): Page {
    pg.(box := pg.box[c := Box(pg, c) + [m]])
  }

  function Log(pg: Page, r: Reply): Page {
    pg.(hist := pg.hist.(replies := pg.hist.replies + [r]))
  }

  /** internal_flush_request to every client of `cs`. */
  function FlushAll(pg: Page, cs: set<Client>): Page {
    pg.(locks := map c | c in pg.locks.Keys + cs ::
                   if c in cs then LockRecord(Count(pg, c) + 1, true) else pg.locks[c],
        box := map c | c in pg.box.Keys + cs :: Box(pg, c) + if c in cs then [Flush] else [])
  }

  /** What flushing does to one client. */
  lemma FlushAt(pg: Page, cs: set<Client>, x: Client)
    ensures var q := FlushAll(pg, cs);
            && Box(q, x) == Box(pg, x) + (if x in cs then [Flush] else [])
            && (x in cs ==> x in q.locks && q.locks[x] == LockRecord(Count(pg, x) + 1, true))
            && (x !in cs ==> (x in q.locks <==> x in pg.locks) && (x in q.locks ==> q.locks[x] == pg.locks[x]))
  {
    assert Box(pg, x) + [] == Box(pg, x);
  }

  function Enqueue(pg: Page, c: Client, write: bool): Page {
    pg.(entry := pg.entry.(wait := pg.entry.wait + [Waiter(c, write)]),
        hist := pg.hist.(asked := pg.hist.asked + [Waiter(c, write)]))
  }

  function Evict(pg: Page, c: Client): Page {
    pg.(entry := pg.entry.(access := pg.entry.access - {c}),
        hist := pg.hist.(writers := pg.hist.writers - {c}))
  }

  function Refuse(pg: Page, c: Client, code: int): Page {
    Log(Post(pg, c, Error(code)), Refused(c, Error(code)))
  }

  /** Forget every error of the page (on eviction). */
  function ClearErrors(pg: Page): Page {
    pg.(entry := pg.entry.(invalid := false, error := KERN_SUCCESS), nextError := [])
  }

  // ----- service_WAITLIST

  /** Length of the longest prefix of `ws` that asks for reading only. */
  function ReaderRun(ws: seq<Waiter>): (n: nat)
    ensures n <= |ws|
    ensures forall i :: 0 <= i < n ==> !ws[i].write
    ensures n < |ws| ==> ws[n].write
  {
    if ws == [] || ws[0].write then 0 else 1 + ReaderRun(ws[1..])
  }

  predicate WriteBatch(ws: seq<Waiter>, allowWrite: bool)
    requires ws != []
  {
    allowWrite && ws[0].write
  }

  /** How many waiters one call of service_WAITLIST serves. */
  function BatchSize(ws: seq<Waiter>, allowWrite: bool): (n: nat)
    requires ws != []
    ensures 1 <= n <= |ws|
  {
    if WriteBatch(ws, allowWrite) then 1 else 1 + ReaderRun(ws[1..])
  }

  function SupplyOne(pg: Page, w: Waiter, data: Content, dealloc: bool, readOnly: bool): Page {
    var m := Supply(data, dealloc, readOnly);
    var sent := Log(Post(pg, w.client, m), Answered(w, m));
    sent.(entry := sent.entry.(access := sent.entry.access + {w.client}),
          hist := sent.hist.(writers := sent.hist.writers + if readOnly then {} else {w.client}))
  }

  /** Supply `ws` in order; only the last message passes on the deallocate flag. */
  function SupplyAll(pg: Page, ws: seq<Waiter>, data: Content, dealloc: bool, readOnly: bool): Page
    decreases |ws|
  {
    if ws == [] then pg
    else SupplyAll(SupplyOne(pg, ws[0], data, dealloc && |ws| == 1, readOnly), ws[1..], data, dealloc, readOnly)
  }

  /** The batch is served; what is left of WAITLIST makes everybody with access flush. */
  function Leave(pg: Page, rest: seq<Waiter>, write: bool): Page {
    var after := pg.(entry := pg.entry.(wait := rest, writeGranted := write));
    if rest != [] then FlushAll(after, after.entry.access) else after
  }

  function Service(pg: Page, data: Content, allowWrite: bool, dealloc: bool): Page
    requires pg.entry.wait != []
  {
    var ws := pg.entry.wait;
    var n := BatchSize(ws, allowWrite);
    var write := WriteBatch(ws, allowWrite);
    Leave(SupplyAll(pg, ws[..n], data, dealloc, !write), ws[n..], write)
  }

  // ----- send_error_to_WAITLIST and finalize_unlock

  function ErrorOne(pg: Page, w: Waiter): Page {
    if w.client in pg.entry.access then
      var flushed := FlushAll(pg, {w.client});
      Log(flushed.(nextError := flushed.nextError + [LateError(w.client, pg.entry.error)]), Deferred(w))
    else
      Log(Post(pg, w.client, Error(pg.entry.error)), Answered(w, Error(pg.entry.error)))
  }

  function ErrorAll(pg: Page, ws: seq<Waiter>): Page
    decreases |ws|
  {
    if ws == [] then pg else ErrorAll(ErrorOne(pg, ws[0]), ws[1..])
  }

  function SendError(pg: Page): Page {
    var sent := ErrorAll(pg, pg.entry.wait);
    sent.(entry := sent.entry.(wait := []))
  }

  function FinalizeUnlock(pg: Page, err: int): Page
    requires pg.entry.wait != []
  {
    var w := pg.entry.wait[0];
    var popped := pg.(entry := pg.entry.(wait := pg.entry.wait[1..]));
    if err == KERN_SUCCESS then
      var sent := Log(Post(popped, w.client, Grant), Answered(w, Grant));
      var granted := sent.(entry := sent.entry.(writeGranted := true),
                           hist := sent.hist.(writers := sent.hist.writers + {w.client}));
      if granted.entry.wait != [] then FlushAll(granted, {w.client}) else granted
    else
      var flushed := FlushAll(popped, {w.client});
      Log(flushed.(nextError := flushed.nextError + [LateError(w.client, err)]), Deferred(w))
  }

  // ----- internal_lock_completed

  /** First critical section, for one page of the range. */
  function CompleteInternal(pg: Page, c: Client): Outcome {
    if pg.entry.writeGranted then Stop
    else if c in pg.entry.access && pg.entry.wait != [] then
      var left := Evict(pg, c);
      if left.entry.access == {} then
        if !left.entry.invalid then Go(left, PageIn) else Go(SendError(left), Done)
      else if |left.entry.access| == 1 && left.entry.wait[0].client in left.entry.access then Go(left, Unlock)
      else Go(left, Done)
    else Go(pg, Done)
  }

  /** Second critical section after pager_read_page. */
  function EndPageIn(pg: Page, err: int, data: Content, writeLock: bool): Page
    requires pg.entry.wait != []
  {
    var noted := pg.(entry := pg.entry.(error := err));
    if err == KERN_SUCCESS then Service(noted, data, !writeLock, true) else SendError(noted)
  }

  // ----- data_request

  /** Index of the first NEXTERROR entry for `c`, or the length of the list. */
  function FirstError(errors: seq<LateError>, c: Client): (i: nat)
    ensures i <= |errors|
    ensures i < |errors| ==> errors[i].client == c
    ensures forall j :: 0 <= j < i ==> errors[j].client != c
  {
    if errors == [] || errors[0].client == c then 0 else 1 + FirstError(errors[1..], c)
  }

  function DataRequest(pg: Page, c: Client, write: bool): Outcome {
    var i := FirstError(pg.nextError, c);
    if i < |pg.nextError| then
      var code := pg.nextError[i].code;
      Go(Refuse(pg.(nextError := pg.nextError[..i] + pg.nextError[i + 1..]), c, code), Done)
    else if pg.entry.pagingOut then
      var asked := if pg.entry.wait == [] then FlushAll(pg, pg.entry.access) else pg;
      Go(Enqueue(asked, c, write), Done)
    else if c in pg.entry.access && pg.entry.wait != [] then
      CompleteInternal(Enqueue(pg, c, write), c)
    else
      var left := if c in pg.entry.access
                  then Evict(pg, c).(entry := Evict(pg, c).entry.(writeGranted := false))
                  else pg;
      if left.entry.wait != [] then Go(Enqueue(left, c, write), Done)
      else if left.entry.writeGranted || (write && left.entry.access != {}) then
        Go(FlushAll(Enqueue(left, c, write), left.entry.access), Done)
      else
        var warned := if left.entry.invalid then Refuse(left, c, left.entry.error) else left;
        Go(Enqueue(warned, c, write), PageIn)
  }

  // ----- lock_completed

  function LockCompleted(pg: Page, c: Client): Outcome {
    if Count(pg, c) == 0 then Stop
    else if pg.locks[c].count == 1 then
      var closed := pg.(locks := pg.locks - {c});
      if pg.locks[c].internal then CompleteInternal(closed, c) else Go(closed, Done)
    else
      Go(pg.(locks := pg.locks[c := pg.locks[c].(count := pg.locks[c].count - 1)]), Done)
  }

  // ----- data_unlock

  predicate AnyWriter(ws: seq<Waiter>) {
    exists i :: 0 <= i < |ws| && ws[i].write
  }

  function DataUnlock(pg: Page, c: Client): Outcome {
    if c !in pg.entry.access || pg.entry.writeGranted || pg.entry.pagingOut then Stop
    else if AnyWriter(pg.entry.wait) then Go(pg, Done)
    else if pg.entry.wait != [] then Go(Enqueue(pg, c, true), Done)
    else if |pg.entry.access| > 1 then Go(FlushAll(Enqueue(pg, c, true), pg.entry.access), Done)
    else Go(Enqueue(pg, c, true), Unlock)
  }

  // ----- data_return and service_first_WRITEWAIT_entry

  function DataReturn(pg: Page, c: Client, data: Content, dirty: bool, kernelCopy: bool): Outcome {
    var left := if kernelCopy || c == MACH_PORT_DEAD then pg else Evict(pg, c);
    var e := left.entry;
    var served :=
      if kernelCopy then Go(left, Done)
      else if e.access == {} && e.wait != [] then Go(Service(left, data, true, false), Done)
      else if |e.access| == 1 && !e.writeGranted && e.wait != [] && e.wait[0].client in e.access then Go(left, Unlock)
      else if e.access == {} && e.wait == [] && !dirty then Go(ClearErrors(left), Done)
      else Go(left, Done);
    if !dirty then served
    else if served.op == Unlock then Stop
    else Go(served.page.(entry := served.page.entry.(pagingOut := true)), Done)
  }

  /** After pager_write_page: `last` tells that no later WRITEWAIT entry covers the page. */
  function EndWrite(pg: Page, err: int, data: Content, kernelCopy: bool, last: bool): Outcome {
    var noted := if err == KERN_SUCCESS then pg.(entry := pg.entry.(invalid := false))
                 else pg.(entry := pg.entry.(invalid := true, error := err));
    if !last then (if kernelCopy then Go(noted, Done) else Stop)
    else
      var out := noted.(entry := noted.entry.(pagingOut := false));
      if kernelCopy then Go(out, Done)
      else if out.entry.wait != [] then Go(Service(out, data, true, false), Done)
      else Go(ClearErrors(out), Done)
  }

  // ----- drop_client and lock_object

  function DropLocks(pg: Page, c: Client): Outcome {
    var closed := pg.(locks := pg.locks - {c});
    if Internal(pg, c) then CompleteInternal(closed, c) else Go(closed, Done)
  }

  function DropAccess(pg: Page, c: Client): Page {
    if c in pg.entry.access
    then Evict(pg, c).(entry := Evict(pg, c).entry.(writeGranted := false))
    else pg
  }

  /** A lock request of the translator to the clients `cs`; `reply` when it is synchronous and
      for exactly this page, so that its completions are counted together with internal ones. */
  function ExternalLock(pg: Page, cs: set<Client>, keep: Keep, flush: bool, reply: bool): Page {
    pg.(locks := if !reply then pg.locks
                 else map c | c in pg.locks.Keys + cs ::
                        if c in cs then LockRecord(Count(pg, c) + 1, Internal(pg, c)) else pg.locks[c],
        box := map c | c in pg.box.Keys + cs ::
                 Box(pg, c) + if c in cs then [Lock(keep, flush, reply)] else [])
  }
}
