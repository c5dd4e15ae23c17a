/**
What a synchronous lock_object may rely on when it returns (libpager/pagemap.cc:447-508).

It is meant to return only after the dirty data that its clients gave back has been written.  With
data_return calls kept apart by the demuxer that is so.  Without that it is not: the block that
lock_object waits for may be dropped unwritten because a later block supersedes it, and then
lock_object returns while the later block is still queued.
*/
module Durability {
  import opened WriteBack
  import opened WriteBackProof

  predicate Within(r: LockTable.Range, p: nat) {
    r.first <= p < r.first + r.npages
  }

  /** Version `v` of `p`, or a later one, was passed to pager_write_page. */
  ghost predicate WrittenSince(s: State, p: nat, v: nat) {
    exists i :: 0 <= i < |s.written| && s.written[i].page == p && s.written[i].version >= v
  }

  lemma {:induction false} WrittenMeans(ws: seq<Write>, p: nat) returns (i: nat)
    requires LastWritten(ws, p) >= 0
    ensures i < |ws| && ws[i] == Write(p, LastWritten(ws, p))
    decreases |ws|
  {
    i := |ws| - 1;
    if ws[i].page != p {
      i := WrittenMeans(ws[..i], p);
    }
  }

  lemma WrittenIff(s: State, p: nat, v: nat)
    requires InOrder(s)
    ensures WrittenSince(s, p, v) <==> LastWritten(s.written, p) >= v
  {
    if LastWritten(s.written, p) >= v {
      var i := WrittenMeans(s.written, p);
    }
    if WrittenSince(s, p, v) {
      var i :| 0 <= i < |s.written| && s.written[i].page == p && s.written[i].version >= v;
      LastIsLargest(s, i);
    }
  }

  // ----- what the waiting threads know

  /** Every version of `r` among the first `n` returns has a number of at most `k`. */
  ghost predicate AllUpTo(bs: seq<Block>, r: LockTable.Range, n: nat, k: int)
    requires n <= |bs|
  {
    forall i, p :: 0 <= i < n && Within(r, p) && Covers(bs[i], p) ==> i <= k
  }

  ghost predicate WaitOk(s: State, w: Wait) {
    match w
    case OnLocks(r) => r in s.locks
    case Woken(_, seen) => seen <= |s.returned|
    case OnWrite(r, seen, scanned, block) =>
      seen <= scanned <= |s.returned| && s.popped <= block < scanned && AllUpTo(s.returned, r, scanned, block)
    case Finished(r, seen, scanned) =>
      seen <= scanned <= |s.returned| && AllUpTo(s.returned, r, scanned, s.popped - 1)
  }

  ghost predicate WaitsOk(s: State) {
    forall t :: t in s.waits ==> WaitOk(s, s.waits[t])
  }

  lemma PopWaits(s: State)
    requires WaitsOk(s) && s.popped < |s.returned|
    ensures WaitsOk(Pop(s))
  {
    var r := Pop(s);
    forall t | t in r.waits ensures WaitOk(r, r.waits[t]) {
      assert WaitOk(s, s.waits[t]);
    }
  }

  lemma SettleWaits(s: State, t: Thread)
    requires WaitsOk(s) && s.popped <= |s.returned|
    ensures WaitsOk(Settle(s, t))
    decreases |s.returned| - s.popped
  {
    if s.popped < |s.returned| && ToWrite(s) == {} {
      PopWaits(s);
      SettleWaits(Pop(s), t);
    } else {
      var r := Settle(s, t);
      forall u | u in r.waits ensures WaitOk(r, r.waits[u]) {
        assert WaitOk(s, s.waits[u]);
      }
    }
  }

  lemma ReturnWaits(s: State, b: Block)
    requires WaitsOk(s)
    ensures WaitsOk(s.(returned := s.returned + [b], pagingOut := s.pagingOut + Pages(b)))
  {
    var r := s.(returned := s.returned + [b], pagingOut := s.pagingOut + Pages(b));
    forall t | t in r.waits ensures WaitOk(r, r.waits[t]) {
      assert WaitOk(s, s.waits[t]);
    }
  }

  lemma {:induction false} OverlapIsLast(s: State, r: LockTable.Range, n: nat)
    requires n <= |s.returned|
    ensures -1 <= LastOverlap(s, r, n) < n
    ensures LastOverlap(s, r, n) >= 0 ==> LastOverlap(s, r, n) >= s.popped
    ensures forall i, p :: s.popped <= i < n && Within(r, p) && Covers(s.returned[i], p) ==> i <= LastOverlap(s, r, n)
  {
    if n > s.popped {
      OverlapIsLast(s, r, n - 1);
    }
  }

  lemma LockWaits(s: State, e: Event)
    requires WaitsOk(s) && Enabled(s, e)
    requires e.LockObject? || e.InternalFlush? || e.LockReply? || e.DropClient? || e.Search?
    ensures WaitsOk(Step(s, e))
  {
    var r := Step(s, e);
    forall t | t in r.waits ensures WaitOk(r, r.waits[t]) {
      assert t in s.waits ==> WaitOk(s, s.waits[t]);
      if e.Search? && e.thread == t {
        OverlapIsLast(s, s.waits[t].range, |s.returned|);
      }
    }
  }

  lemma StepWaits(s: State, e: Event)
    requires WaitsOk(s) && Enabled(s, e)
    ensures WaitsOk(Step(s, e))
  {
    match e
    case Return(t, b) =>
      ReturnWaits(s, b);
      if s.popped == |s.returned| {
        SettleWaits(s.(returned := s.returned + [b], pagingOut := s.pagingOut + Pages(b)), t);
      }
    case EndPass(t, notify) =>
      var out := s.(pagingOut := s.pagingOut - Committed(s, s.serving[t].pages));
      if !notify {
        forall u | u in out.waits ensures WaitOk(out, out.waits[u]) {
          assert WaitOk(s, s.waits[u]);
        }
        PopWaits(out);
        SettleWaits(Pop(out), t);
      } else {
        PassWaits(s, Step(s, e));
      }
    case EndNotify(t) =>
      PopWaits(s);
      SettleWaits(Pop(s), t);
    case BeginWrite(_) => PassWaits(s, Step(s, e));
    case EndWrite(_) => PassWaits(s, Step(s, e));
    case SkipPage(_) => PassWaits(s, Step(s, e));
    case LockObject(_, _, _) => LockWaits(s, e);
    case InternalFlush(_, _) => LockWaits(s, e);
    case LockReply(_, _) => LockWaits(s, e);
    case DropClient(_) => LockWaits(s, e);
    case Search(_) => LockWaits(s, e);
  }

  lemma PassWaits(s: State, r: State)
    requires WaitsOk(s) && s.returned == r.returned && s.popped == r.popped && s.locks == r.locks && s.waits == r.waits
    ensures WaitsOk(r)
  {
    forall u | u in r.waits ensures WaitOk(r, r.waits[u]) {
      assert WaitOk(s, s.waits[u]);
    }
  }

  lemma {:induction false} RunWaits(s: State, evs: seq<Event>)
    requires WaitsOk(s) && Valid(s, evs)
    ensures WaitsOk(Exec(s, evs))
    decreases |evs|
  {
    if evs != [] {
      StepWaits(s, evs[0]);
      RunWaits(Step(s, evs[0]), evs[1..]);
    }
  }

  /** Thread `t` has returned from a synchronous lock_object of a range with page `p`, and version `v` of
      the page was returned before the last completion that `t` waited for. */
  predicate Promised(s: State, t: Thread, p: nat, v: nat) {
    && t in s.waits && s.waits[t].Finished? && Within(s.waits[t].range, p)
    && v < s.waits[t].seen && v < |s.returned| && Covers(s.returned[v], p)
  }

  /** `p` has an uncommitted version numbered `n` or later. */
  ghost predicate Overtaken(s: State, p: nat, n: nat) {
    exists i :: n <= i < |s.returned| && FirstUncommitted(s) <= i && Covers(s.returned[i], p)
  }

  /** Over every interleaving: when a synchronous lock_object has returned, each version of a page of
      its range returned before the last completion it waited for was written, or superseded by one
      that was, or else the page has a later version, returned after lock_object's search of WRITEWAIT,
      that is still queued. */
  lemma DurableUnlessOvertaken(evs: seq<Event>, t: Thread, p: nat, v: nat)
    requires Valid(Start, evs) && Promised(Exec(Start, evs), t, p, v)
    ensures var s := Exec(Start, evs);
            WrittenSince(s, p, v) || Overtaken(s, p, s.waits[t].scanned)
  {
    var s := Exec(Start, evs);
    StartIsOk();
    RunKeeps(Start, evs);
    RunWaits(Start, evs);
    assert WaitOk(s, s.waits[t]);
    InvPage(s, p);
    WrittenIff(s, p, v);
    var last := LastCover(s.returned, |s.returned|, p);
    if LastWritten(s.written, p) < v {
      assert last >= FirstUncommitted(s) && Covers(s.returned[last], p);
      assert last >= s.waits[t].scanned;
    }
  }

  // ----- with data_return calls kept apart

  /** No dirty data_return comes while another is in progress. */
  ghost predicate Serial(s: State, evs: seq<Event>)
    requires Valid(s, evs)
    decreases |evs|
  {
    evs == [] ||
    ((evs[0].Return? ==> s.popped == |s.returned|) && Serial(Step(s, evs[0]), evs[1..]))
  }

  /** Everything a finished lock_object could wait for has been written. */
  ghost predicate AllWritten(s: State, w: Wait) {
    w.Finished? ==>
      forall v, p :: 0 <= v < w.scanned && v < |s.returned| && Within(w.range, p) && Covers(s.returned[v], p) ==>
        LastWritten(s.written, p) >= v
  }

  ghost predicate SerialOk(s: State) {
    s.popped + 1 >= |s.returned| && forall t :: t in s.waits ==> AllWritten(s, s.waits[t])
  }

  lemma SettleFrame(s: State, t: Thread)
    requires s.popped <= |s.returned| && WaitsOk(s)
    ensures var r := Settle(s, t);
            && r.returned == s.returned && r.written == s.written && r.waits.Keys == s.waits.Keys
            && s.popped <= r.popped <= |s.returned|
            && forall u :: u in s.waits ==>
                 var w := s.waits[u];
                 r.waits[u] == if w.OnWrite? && w.block < r.popped then Finished(w.range, w.seen, w.scanned) else w
    decreases |s.returned| - s.popped
  {
    assert forall u :: u in s.waits && s.waits[u].OnWrite? ==> WaitOk(s, s.waits[u]);
    if s.popped < |s.returned| && ToWrite(s) == {} {
      PopWaits(s);
      SettleFrame(Pop(s), t);
    }
  }

  lemma StepShape(s: State, e: Event)
    requires WaitsOk(s) && Enabled(s, e)
    ensures var r := Step(s, e);
            && r.returned == (if e.Return? then s.returned + [e.block] else s.returned)
            && s.popped <= r.popped && (!e.BeginWrite? ==> r.written == s.written)
  {
    match e
    case Return(t, b) =>
      ReturnWaits(s, b);
      if s.popped == |s.returned| {
        SettleFrame(s.(returned := s.returned + [b], pagingOut := s.pagingOut + Pages(b)), t);
      }
    case EndPass(t, notify) =>
      var out := s.(pagingOut := s.pagingOut - Committed(s, s.serving[t].pages));
      PassWaits(s, out);
      PopWaits(out);
      SettleFrame(Pop(out), t);
    case EndNotify(t) =>
      PopWaits(s);
      SettleFrame(Pop(s), t);
    case _ =>
  }

  /** Later versions replace earlier ones. */
  lemma StepGrows(s: State, e: Event, p: nat)
    requires Inv(s) && WaitsOk(s) && Enabled(s, e)
    ensures LastWritten(Step(s, e).written, p) >= LastWritten(s.written, p)
  {
    StepShape(s, e);
    if e.BeginWrite? {
      WriteMore(s.written, Write(s.serving[e.thread].next, s.popped), p);
      InvPage(s, p);
    }
  }

  /** A thread finishes in a search that finds nothing, or when the block it waits for is popped. */
  lemma NewlyFinished(s: State, e: Event, t: Thread)
    requires Inv(s) && WaitsOk(s) && Enabled(s, e)
    requires t in Step(s, e).waits && Step(s, e).waits[t].Finished?
    ensures t in s.waits
    ensures s.waits[t] == Step(s, e).waits[t] || (e == Search(t) &&
      LastOverlap(s, s.waits[t].range, |s.returned|) < 0) ||
            (s.waits[t].OnWrite? && Step(s, e).popped > s.waits[t].block)
  {
    match e
    case Return(u, b) =>
      ReturnWaits(s, b);
      if s.popped == |s.returned| {
        SettleFrame(s.(returned := s.returned + [b], pagingOut := s.pagingOut + Pages(b)), u);
      }
    case EndPass(u, notify) =>
      var out := s.(pagingOut := s.pagingOut - Committed(s, s.serving[u].pages));
      PassWaits(s, out);
      PopWaits(out);
      SettleFrame(Pop(out), u);
    case EndNotify(u) =>
      PopWaits(s);
      SettleFrame(Pop(s), u);
    case _ =>
  }

  lemma SerialStep(s: State, e: Event)
    requires Inv(s) && WaitsOk(s) && SerialOk(s) && Enabled(s, e)
    requires e.Return? ==> s.popped == |s.returned|
    ensures SerialOk(Step(s, e))
  {
    var r := Step(s, e);
    StepShape(s, e);
    StepKeeps(s, e);
    StepWaits(s, e);
    forall t | t in r.waits && r.waits[t].Finished? ensures AllWritten(r, r.waits[t]) {
      NewlyFinished(s, e, t);
      var w := r.waits[t];
      assert WaitOk(s, s.waits[t]) && WaitOk(r, w);
      forall v, p | 0 <= v < w.scanned && v < |r.returned| && Within(w.range, p) && Covers(r.returned[v], p)
        ensures LastWritten(r.written, p) >= v
      {
        StepGrows(s, e, p);
        InvPage(r, p);
        if s.waits[t] == w {
          assert AllWritten(s, w) && s.returned[v] == r.returned[v];
        }
      }
    }
  }

  lemma {:induction false} SerialRun(s: State, evs: seq<Event>)
    requires Inv(s) && WaitsOk(s) && SerialOk(s) && Valid(s, evs) && Serial(s, evs)
    ensures SerialOk(Exec(s, evs))
    decreases |evs|
  {
    if evs != [] {
      SerialStep(s, evs[0]);
      StepKeeps(s, evs[0]);
      StepWaits(s, evs[0]);
      SerialRun(Step(s, evs[0]), evs[1..]);
    }
  }

  /** With data_return calls kept apart, a synchronous lock_object that has returned finds every
      version returned before its last completion written or superseded by one that was; and the
      assertion at the end of a pass never fails. */
  lemma SerialIsDurable(evs: seq<Event>)
    requires Valid(Start, evs) && Serial(Start, evs)
    ensures var s := Exec(Start, evs);
            && (forall t, p, v :: Promised(s, t, p, v) ==> WrittenSince(s, p, v))
            && (forall t :: t in s.serving && s.serving[t].Writing? && s.popped < |s.returned| ==>
                  Committed(s, s.serving[t].pages) == s.serving[t].pages)
  {
    var s := Exec(Start, evs);
    StartIsOk();
    RunKeeps(Start, evs);
    RunWaits(Start, evs);
    SerialRun(Start, evs);
    forall t, p, v | Promised(s, t, p, v) ensures WrittenSince(s, p, v) {
      assert WaitOk(s, s.waits[t]) && AllWritten(s, s.waits[t]);
      WrittenIff(s, p, v);
    }
    forall t | t in s.serving && s.serving[t].Writing? && s.popped < |s.returned|
      ensures Committed(s, s.serving[t].pages) == s.serving[t].pages
    {
      forall p | p in s.serving[t].pages ensures p in Committed(s, s.serving[t].pages) {
        assert p in Pages(s.returned[s.popped]);
        MatchingMeans(s.returned, s.popped, |s.returned|, p);
      }
    }
  }
}
