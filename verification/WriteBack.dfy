/**
Write-back (data_return and service_first_WRITEWAIT_entry in libpager/pagemap.cc) and the wait of a
synchronous lock_object for it, under every interleaving of critical sections: any number of threads
may be inside data_return, and nothing says that the demuxer keeps them apart.

A dirty data_return appends a block to WRITEWAIT.  The thread that found WRITEWAIT empty stays to
service it, block by block, until it is empty again, and releases the lock while it calls
pager_write_page and pager_notify_evict.
*/
module WriteBack {
  import PageSpec
  import opened LockTable

  type Thread = nat

  /** One dirty data_return; the number of the return stands for the version of the data it carries. */
  datatype Block = Block(first: nat, npages: nat, kernelCopy: bool)

  predicate Covers(b: Block, p: nat) {
    b.first <= p < b.first + b.npages
  }

  function Pages(b: Block): set<nat> {
    set p | b.first <= p < b.first + b.npages && Covers(b, p)
  }

  /** A call of pager_write_page, with the version of the page it was given. */
  datatype Write = Write(page: nat, version: nat)

  /** Where the thread that services WRITEWAIT is: in the loop over the pages to write, about to look
      at page `next` or inside the call for it; or notifying about evictions. */
  datatype Pc = Writing(pages: set<nat>, next: nat, inCall: bool) | Notifying

  /** A thread inside a synchronous lock_object of `range`.  `seen` is the number of dirty returns
      made when the last completion came, `scanned` their number when WRITEWAIT was searched. */
  datatype Wait =
    | OnLocks(range: Range)
    | Woken(range: Range, seen: nat)
    | OnWrite(range: Range, seen: nat, scanned: nat, block: nat)
    | Finished(range: Range, seen: nat, scanned: nat)

  /** WRITEWAIT is `returned[popped..]`. */
  datatype State = State(
    returned: seq<Block>,
    popped: nat,
    serving: map<Thread, Pc>,
    written: seq<Write>,
    pagingOut: set<nat>,
    locks: Table,
    waits: map<Thread, Wait>
  )

  const Start := State([], 0, map[], [], {}, map[], map[])

  datatype Event =
    | Return(thread: Thread, block: Block)
    | BeginWrite(thread: Thread)
    | EndWrite(thread: Thread)
    | SkipPage(thread: Thread)
    | EndPass(thread: Thread, notify: bool)
    | EndNotify(thread: Thread)
    | LockObject(thread: Thread, range: Range, clients: set<Client>)
    | InternalFlush(page: nat, client: Client)
    | LockReply(range: Range, client: Client)
    | DropClient(client: Client)
    | Search(thread: Thread)

  // ----- the steps

  /** How many blocks of `bs[lo..hi]` cover `p`. */
  function Matching(bs: seq<Block>, lo: nat, hi: nat, p: nat): nat
    requires hi <= |bs|
  {
    if hi <= lo then 0 else Matching(bs, lo, hi - 1, p) + if Covers(bs[hi - 1], p) then 1 else 0
  }

  /** The pages of the first block that no later block on WRITEWAIT covers. */
  function ToWrite(s: State): set<nat>
    requires s.popped < |s.returned|
  {
    set p | p in Pages(s.returned[s.popped]) && Matching(s.returned, s.popped, |s.returned|, p) == 1
  }

  /** The first block leaves WRITEWAIT and whoever waits for it goes on. */
  function Pop(s: State): State {
    s.(popped := s.popped + 1,
       waits := map t | t in s.waits ::
                  var w := s.waits[t];
                  if w.OnWrite? && w.block == s.popped then Finished(w.range, w.seen, w.scanned) else w)
  }

  /** The loop of data_return while the lock is held: blocks with nothing to write are dropped. */
  function Settle(s: State, t: Thread): State
    requires s.popped <= |s.returned|
    decreases |s.returned| - s.popped
  {
    if s.popped == |s.returned| then s.(serving := s.serving - {t})
    else if ToWrite(s) == {} then Settle(Pop(s), t)
    else s.(serving := s.serving[t := Writing(ToWrite(s), s.returned[s.popped].first, false)])
  }

  /** The pages of the pass that no block queued in the meantime covers. */
  function Committed(s: State, pages: set<nat>): set<nat>
    requires s.popped < |s.returned|
  {
    set p | p in pages && Matching(s.returned, s.popped, |s.returned|, p) == 1
  }

  /** The last block, from the back of WRITEWAIT, that overlaps or touches the range. */
  function LastOverlap(s: State, r: Range, n: nat): (i: int)
    requires n <= |s.returned|
  {
    if n <= s.popped then -1
    else
      var b := s.returned[n - 1];
      if b.first <= r.first + r.npages && b.first + b.npages >= r.first then n - 1
      else LastOverlap(s, r, n - 1)
  }

  function AllRequested(t: Table, r: Range, cs: set<Client>): Table {
    t[r := map c | c in At(t, r).Keys + cs ::
             if c in cs then PageSpec.LockRecord(Owed(t, r, c) + 1, c in At(t, r) && At(t, r)[c].internal)
               else At(t, r)[c]]
  }

  /** lock_object requests the clients one after the other. */
  lemma OneByOne(t: Table, r: Range, cs: set<Client>, c: Client)
    requires c !in cs
    ensures AllRequested(t, r, cs + {c}) == Requested(if cs == {} then t else AllRequested(t, r, cs), r, c, false)
  {
    var some := if cs == {} then t else AllRequested(t, r, cs);
    assert At(AllRequested(t, r, cs + {c}), r) == At(Requested(some, r, c, false), r);
  }

  /** The table shrinks to `after`, and the sleepers on records that are gone wake up. */
  function Answered(s: State, after: Table): State {
    s.(locks := after,
       waits := map t | t in s.waits ::
                  var w := s.waits[t];
                  if w.OnLocks? && w.range !in after then Woken(w.range, |s.returned|) else w)
  }

  predicate Enabled(s: State, e: Event) {
    && s.popped <= |s.returned|
    && match e
       case Return(t, _) => t !in s.serving
       case BeginWrite(t) =>
         t in s.serving && s.serving[t].Writing? && !s.serving[t].inCall && s.serving[t].next in s.serving[t].pages
       case EndWrite(t) => t in s.serving && s.serving[t].Writing? && s.serving[t].inCall
       case SkipPage(t) =>
         t in s.serving && s.serving[t].Writing? && !s.serving[t].inCall && s.popped < |s.returned| &&
         s.serving[t].next in Pages(s.returned[s.popped]) && s.serving[t].next !in s.serving[t].pages
       case EndPass(t, _) =>
         // past the last page, and past the assertion that only a kernel's copy is overtaken
         t in s.serving && s.serving[t].Writing? && s.popped < |s.returned| && !s.serving[t].inCall &&
         s.serving[t].next == s.returned[s.popped].first + s.returned[s.popped].npages &&
         (Committed(s, s.serving[t].pages) == s.serving[t].pages || s.returned[s.popped].kernelCopy)
       case EndNotify(t) => t in s.serving && s.serving[t].Notifying? && s.popped < |s.returned|
       case LockObject(t, _, cs) => t !in s.waits && cs != {}
       case InternalFlush(_, _) => true
       case LockReply(r, c) => Owed(s.locks, r, c) > 0
       case DropClient(_) => true
       case Search(t) => t in s.waits && s.waits[t].Woken?
  }

  function Step(s: State, e: Event): State
    requires Enabled(s, e)
  {
    match e
    case Return(t, b) =>
      var queued := s.(returned := s.returned + [b], pagingOut := s.pagingOut + Pages(b));
      if s.popped == |s.returned| then Settle(queued, t) else queued
    case BeginWrite(t) =>
      var pc := s.serving[t];
      s.(serving := s.serving[t := pc.(inCall := true)], written := s.written + [Write(pc.next, s.popped)])
    case EndWrite(t) =>
      s.(serving := s.serving[t := s.serving[t].(inCall := false, next := s.serving[t].next + 1)])
    case SkipPage(t) =>
      s.(serving := s.serving[t := s.serving[t].(next := s.serving[t].next + 1)])
    case EndPass(t, notify) =>
      var out := s.(pagingOut := s.pagingOut - Committed(s, s.serving[t].pages));
      if notify then out.(serving := s.serving[t := Notifying]) else Settle(Pop(out), t)
    case EndNotify(t) => Settle(Pop(s), t)
    case LockObject(t, r, cs) => s.(locks := AllRequested(s.locks, r, cs), waits := s.waits[t := OnLocks(r)])
    case InternalFlush(p, c) => s.(locks := Requested(s.locks, Range(p, 1), c, true))
    case LockReply(r, c) => Answered(s, Replied(s.locks, r, c))
    case DropClient(c) => Answered(s, Dropped(s.locks, c))
    case Search(t) =>
      var w := s.waits[t];
      var i := LastOverlap(s, w.range, |s.returned|);
      s.(waits := s.waits[t := if i < 0 then Finished(w.range, w.seen, |s.returned|)
                               else OnWrite(w.range, w.seen, |s.returned|, i)])
  }

  ghost predicate Valid(s: State, evs: seq<Event>)
    decreases |evs|
  {
    evs == [] || (Enabled(s, evs[0]) && Valid(Step(s, evs[0]), evs[1..]))
  }

  ghost function Exec(s: State, evs: seq<Event>): State
    requires Valid(s, evs)
    decreases |evs|
  {
    if evs == [] then s else Exec(Step(s, evs[0]), evs[1..])
  }
}
