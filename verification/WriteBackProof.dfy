/**
What every interleaving of WriteBack keeps: one thread at a time calls pager_write_page; the versions
of a page are written in the order they were returned; PAGINGOUT tells exactly which pages still have
an uncommitted version; and once a page has none, the last version returned is the last one written.
*/
module WriteBackProof {
  import opened WriteBack

  // ----- the latest version returned, and the latest one written, of a page

  /** The last of the first `n` returns that covers `p`, or -1. */
  function LastCover(bs: seq<Block>, n: nat, p: nat): (v: int)
    requires n <= |bs|
    ensures -1 <= v < n && (v >= 0 ==> Covers(bs[v], p))
    ensures forall i :: v < i < n ==> !Covers(bs[i], p)
  {
    if n == 0 then -1 else if Covers(bs[n - 1], p) then n - 1 else LastCover(bs, n - 1, p)
  }

  function LastWritten(ws: seq<Write>, p: nat): (v: int)
    ensures v >= -1
    decreases |ws|
  {
    if ws == [] then -1
    else if ws[|ws| - 1].page == p then ws[|ws| - 1].version
    else LastWritten(ws[..|ws| - 1], p)
  }

  lemma WriteMore(ws: seq<Write>, w: Write, p: nat)
    ensures LastWritten(ws + [w], p) == if w.page == p then w.version else LastWritten(ws, p)
  {
    assert (ws + [w])[..|ws|] == ws;
  }

  lemma CoverIsUnique(bs: seq<Block>, cs: seq<Block>, n: nat, p: nat)
    requires n <= |bs| && n <= |cs| && bs[..n] == cs[..n]
    ensures LastCover(bs, n, p) == LastCover(cs, n, p)
  {
    assert forall i :: 0 <= i < n ==> bs[..n][i] == bs[i] && cs[..n][i] == cs[i];
  }

  lemma CoverMore(bs: seq<Block>, b: Block, p: nat)
    ensures LastCover(bs + [b], |bs| + 1, p) == if Covers(b, p) then |bs| else LastCover(bs, |bs|, p)
    ensures forall n :: 0 <= n <= |bs| ==> LastCover(bs + [b], n, p) == LastCover(bs, n, p)
  {
    forall n | 0 <= n <= |bs| ensures LastCover(bs + [b], n, p) == LastCover(bs, n, p) {
      assert (bs + [b])[..n] == bs[..n];
      CoverIsUnique(bs + [b], bs, n, p);
    }
  }

  /** Counting the matching blocks tells whether the first is the last to cover the page. */
  lemma {:induction false} MatchingMeans(bs: seq<Block>, lo: nat, hi: nat, p: nat)
    requires lo <= hi <= |bs|
    ensures Matching(bs, lo, hi, p) == 0 <==> LastCover(bs, hi, p) < lo
    ensures lo < hi && Covers(bs[lo], p) ==> (Matching(bs, lo, hi, p) == 1 <==> LastCover(bs, hi, p) == lo)
  {
    if lo < hi {
      MatchingMeans(bs, lo, hi - 1, p);
    }
  }

  // ----- the invariant

  /** What the servicing thread, if there is one, is doing. */
  datatype View = Idle | Serves(pc: Pc)

  ghost predicate Sole(s: State, t: Thread) {
    t in s.serving && forall u :: u in s.serving ==> u == t
  }

  /** Returns from this number on have not been committed. */
  function Uncommitted(s: State, v: View): nat {
    if v == Serves(Notifying) then s.popped + 1 else s.popped
  }

  /** The pass over the first block. */
  ghost predicate PassOk(s: State, v: View) {
    v.Serves? ==>
      && s.popped < |s.returned|
      && (v.pc.Writing? ==>
            var b := s.returned[s.popped];
            v.pc.pages <= Pages(b) && b.first <= v.pc.next <= b.first + b.npages &&
              (v.pc.inCall ==> v.pc.next in v.pc.pages))
  }

  /** The pass has called pager_write_page for `p`. */
  predicate Passed(v: View, p: nat) {
    v.Serves? && v.pc.Writing? && p in v.pc.pages && (p < v.pc.next || (p == v.pc.next && v.pc.inCall))
  }

  ghost predicate PageOk(s: State, v: View, p: nat)
    requires s.popped <= |s.returned|
  {
    var last, w := LastCover(s.returned, |s.returned|, p), LastWritten(s.written, p);
    && (p in s.pagingOut <==> last >= Uncommitted(s, v))
    && (p !in s.pagingOut ==> w == last)
    && (if Passed(v, p) then w == s.popped else w < Uncommitted(s, v))
    && (v.Serves? && v.pc.Writing? && last == s.popped ==> p in v.pc.pages)
  }

  /** Versions of a page are written in the order of their returns, each at most once. */
  ghost predicate InOrder(s: State) {
    && (forall i :: 0 <= i < |s.written| ==>
          s.written[i].version < |s.returned| && Covers(s.returned[s.written[i].version], s.written[i].page))
    && (forall i, j :: 0 <= i < j < |s.written| && s.written[i].page == s.written[j].page ==>
          s.written[i].version < s.written[j].version)
  }

  ghost predicate Good(s: State, v: View) {
    s.popped <= |s.returned| && PassOk(s, v) && InOrder(s) && forall p: nat :: PageOk(s, v, p)
  }

  /** Blocks are queued exactly while one thread services them. */
  ghost predicate Inv(s: State) {
    && s.popped <= |s.returned|
    && (if s.popped == |s.returned| then s.serving == map[] && Good(s, Idle)
        else exists t :: Sole(s, t) && Good(s, Serves(s.serving[t])))
  }

  // ----- every step keeps it

  lemma ToWriteMeans(s: State, p: nat)
    requires s.popped < |s.returned|
    ensures p in ToWrite(s) <==> LastCover(s.returned, |s.returned|, p) == s.popped
  {
    MatchingMeans(s.returned, s.popped, |s.returned|, p);
  }

  /** A block that needs no writing can be dropped. */
  lemma DropKeeps(s: State)
    requires Good(s, Idle) && s.popped < |s.returned| && ToWrite(s) == {}
    ensures Good(Pop(s), Idle)
  {
    forall p: nat ensures PageOk(Pop(s), Idle, p) {
      assert PageOk(s, Idle, p);
      ToWriteMeans(s, p);
    }
  }

  lemma NewPass(s: State, r: State, v: View)
    requires Good(s, Idle) && s.popped < |s.returned| && r == s.(serving := r.serving)
    requires v == Serves(Writing(ToWrite(s), s.returned[s.popped].first, false))
    ensures Good(r, v)
  {
    forall p: nat ensures PageOk(r, v, p) {
      assert PageOk(s, Idle, p);
      ToWriteMeans(s, p);
      assert !Passed(v, p);
    }
  }

  lemma SettleKeeps(s: State, t: Thread)
    requires Good(s, Idle) && forall u :: u in s.serving ==> u == t
    ensures Inv(Settle(s, t))
    decreases |s.returned| - s.popped
  {
    var r := Settle(s, t);
    if s.popped == |s.returned| {
      assert r.serving == map[];
      assert forall p: nat :: PageOk(s, Idle, p) ==> PageOk(r, Idle, p);
    } else if ToWrite(s) == {} {
      DropKeeps(s);
      SettleKeeps(Pop(s), t);
    } else {
      NewPass(s, r, Serves(r.serving[t]));
      assert Sole(r, t);
    }
  }

  lemma ReturnKeeps(s: State, t: Thread, b: Block)
    requires Inv(s) && Enabled(s, Return(t, b))
    ensures Inv(Step(s, Return(t, b)))
  {
    var q := s.(returned := s.returned + [b], pagingOut := s.pagingOut + Pages(b));
    var v := Idle;
    if s.popped < |s.returned| {
      var u :| Sole(s, u) && Good(s, Serves(s.serving[u]));
      v := Serves(s.serving[u]);
      assert Sole(q, u);
    }
    QueuedKeeps(s, q, v, b);
    if s.popped == |s.returned| {
      SettleKeeps(q, t);
    }
  }

  /** One more block on the queue leaves the pass as it is. */
  lemma QueuedKeeps(s: State, q: State, v: View, b: Block)
    requires Good(s, v) && q == s.(returned := s.returned + [b], pagingOut := s.pagingOut + Pages(b))
    ensures Good(q, v)
  {
    forall p: nat ensures PageOk(q, v, p) {
      assert PageOk(s, v, p);
      CoverMore(s.returned, b, p);
    }
  }

  lemma BeginWriteKeeps(s: State, t: Thread)
    requires Inv(s) && Enabled(s, BeginWrite(t))
    ensures Inv(Step(s, BeginWrite(t)))
  {
    var r := Step(s, BeginWrite(t));
    var v, w := Serves(s.serving[t]), Serves(r.serving[t]);
    var x := Write(v.pc.next, s.popped);
    assert Sole(r, t) && Good(s, v);
    forall p: nat ensures PageOk(r, w, p) {
      assert PageOk(s, v, p);
      WriteMore(s.written, x, p);
    }
    assert PageOk(s, v, x.page);
    forall i | 0 <= i < |s.written| && s.written[i].page == x.page ensures s.written[i].version < x.version {
      LastIsLargest(s, i);
    }
  }

  lemma {:induction false} LastIsLargest(s: State, i: nat)
    requires i < |s.written|
    requires forall i, j :: 0 <= i < j < |s.written| && s.written[i].page == s.written[j].page ==>
          s.written[i].version < s.written[j].version
    ensures s.written[i].version <= LastWritten(s.written, s.written[i].page)
    decreases |s.written|
  {
    var n := |s.written| - 1;
    if s.written[n].page != s.written[i].page {
      LastIsLargest(s.(written := s.written[..n]), i);
    }
  }

  /** The thread moves past page `next`, which is either just written or not part of the pass. */
  lemma AdvanceKeeps(s: State, e: Event)
    requires Inv(s) && Enabled(s, e) && (e.EndWrite? || e.SkipPage?)
    ensures Inv(Step(s, e))
  {
    var r := Step(s, e);
    var v, w := Serves(s.serving[e.thread]), Serves(r.serving[e.thread]);
    assert Sole(r, e.thread) && Good(s, v);
    forall p: nat ensures PageOk(r, w, p) {
      assert PageOk(s, v, p);
    }
  }

  /** The end of a pass commits its block. */
  lemma EndPassKeeps(s: State, t: Thread, notify: bool)
    requires Inv(s) && Enabled(s, EndPass(t, notify))
    ensures Inv(Step(s, EndPass(t, notify)))
  {
    var v := Serves(s.serving[t]);
    assert Good(s, v);
    var out := s.(pagingOut := s.pagingOut - Committed(s, v.pc.pages));
    forall p: nat ensures PageOk(out, Serves(Notifying), p) {
      EndPassPage(s, v, out, p);
    }
    assert Good(out, Serves(Notifying));
    if notify {
      var done := out.(serving := s.serving[t := Notifying]);
      SameGood(out, done, Serves(Notifying));
      assert Sole(done, t);
    } else {
      NotifiedIsPopped(out);
      SettleKeeps(Pop(out), t);
    }
  }

  lemma EndPassPage(s: State, v: View, out: State, p: nat)
    requires s.popped < |s.returned| && PassOk(s, v) && PageOk(s, v, p) && v.Serves? && v.pc.Writing? && !v.pc.inCall
    requires v.pc.next == s.returned[s.popped].first + s.returned[s.popped].npages
    requires out == s.(pagingOut := s.pagingOut - Committed(s, v.pc.pages))
    ensures PageOk(out, Serves(Notifying), p)
  {
    MatchingMeans(s.returned, s.popped, |s.returned|, p);
    assert p in v.pc.pages ==> p in Pages(s.returned[s.popped]);
  }

  /** The invariant does not look at who serves, or at the locks. */
  lemma SameGood(s: State, r: State, v: View)
    requires Good(s, v) && r == s.(serving := r.serving, locks := r.locks, waits := r.waits)
    ensures Good(r, v)
  {
    forall p: nat ensures PageOk(r, v, p) {
      assert PageOk(s, v, p);
    }
  }

  /** A committed block can leave the queue. */
  lemma NotifiedIsPopped(s: State)
    requires Good(s, Serves(Notifying))
    ensures Good(Pop(s), Idle)
  {
    forall p: nat ensures PageOk(Pop(s), Idle, p) {
      assert PageOk(s, Serves(Notifying), p);
    }
  }

  lemma EndNotifyKeeps(s: State, t: Thread)
    requires Inv(s) && Enabled(s, EndNotify(t))
    ensures Inv(Step(s, EndNotify(t)))
  {
    assert Good(s, Serves(Notifying));
    NotifiedIsPopped(s);
    SettleKeeps(Pop(s), t);
  }

  /** The events of lock_object touch none of this. */
  lemma LocksKeep(s: State, e: Event)
    requires Inv(s) && Enabled(s, e)
    requires e.LockObject? || e.InternalFlush? || e.LockReply? || e.DropClient? || e.Search?
    ensures Inv(Step(s, e))
  {
    var r := Step(s, e);
    var v := Idle;
    if s.popped < |s.returned| {
      var t :| Sole(s, t) && Good(s, Serves(s.serving[t]));
      v := Serves(s.serving[t]);
      assert Sole(r, t);
    }
    SameGood(s, r, v);
  }

  lemma StepKeeps(s: State, e: Event)
    requires Inv(s) && Enabled(s, e)
    ensures Inv(Step(s, e))
  {
    match e
    case Return(t, b) => ReturnKeeps(s, t, b);
    case BeginWrite(t) => BeginWriteKeeps(s, t);
    case EndPass(t, notify) => EndPassKeeps(s, t, notify);
    case EndNotify(t) => EndNotifyKeeps(s, t);
    case EndWrite(_) => AdvanceKeeps(s, e);
    case SkipPage(_) => AdvanceKeeps(s, e);
    case LockObject(_, _, _) => LocksKeep(s, e);
    case InternalFlush(_, _) => LocksKeep(s, e);
    case LockReply(_, _) => LocksKeep(s, e);
    case DropClient(_) => LocksKeep(s, e);
    case Search(_) => LocksKeep(s, e);
  }

  lemma {:induction false} RunKeeps(s: State, evs: seq<Event>)
    requires Inv(s) && Valid(s, evs)
    ensures Inv(Exec(s, evs))
    decreases |evs|
  {
    if evs != [] {
      StepKeeps(s, evs[0]);
      RunKeeps(Step(s, evs[0]), evs[1..]);
    }
  }

  /** The number of the first return that has not been committed: the block at the front of WRITEWAIT,
      or the next one when the front block is committed and its evictions are being notified. */
  ghost function FirstUncommitted(s: State): nat {
    if exists t :: t in s.serving && s.serving[t].Notifying? then s.popped + 1 else s.popped
  }

  /** `p` has a version that was returned and is not committed. */
  ghost predicate Pending(s: State, p: nat) {
    exists i :: FirstUncommitted(s) <= i < |s.returned| && Covers(s.returned[i], p)
  }

  ghost predicate InCall(s: State, t: Thread) {
    t in s.serving && s.serving[t].Writing? && s.serving[t].inCall
  }

  lemma InvPage(s: State, p: nat)
    requires Inv(s)
    ensures Pending(s, p) <==> p in s.pagingOut
    ensures Pending(s, p) <==> LastCover(s.returned, |s.returned|, p) >= FirstUncommitted(s)
    ensures !Pending(s, p) ==> LastWritten(s.written, p) == LastCover(s.returned, |s.returned|, p)
    ensures LastWritten(s.written, p) <= s.popped
  {
    var v := Idle;
    if s.popped < |s.returned| {
      var t :| Sole(s, t) && Good(s, Serves(s.serving[t]));
      v := Serves(s.serving[t]);
    }
    assert Uncommitted(s, v) == FirstUncommitted(s);
    assert PageOk(s, v, p);
    var last := LastCover(s.returned, |s.returned|, p);
    if last >= FirstUncommitted(s) {
      assert Covers(s.returned[last], p);
    }
  }

  lemma StartIsOk()
    ensures Inv(Start)
  {
    assert forall p: nat :: PageOk(Start, Idle, p);
  }

  /** The write-back order, over every interleaving. */
  lemma WriteBackOrder(evs: seq<Event>)
    requires Valid(Start, evs)
    ensures var s := Exec(Start, evs);
            // calls of pager_write_page never overlap
            && (forall t, u :: InCall(s, t) && InCall(s, u) ==> t == u)
            // the versions written of a page are, in order, some of those returned
            && InOrder(s)
            // PAGINGOUT is set exactly while an uncommitted version is queued
            && (forall p: nat :: p in s.pagingOut <==> Pending(s, p))
            // and otherwise the last version returned is the last one written
            && (forall p: nat :: p !in s.pagingOut ==>
                  LastWritten(s.written, p) == LastCover(s.returned, |s.returned|, p))
            && (s.popped == |s.returned| ==> s.pagingOut == {})
  {
    StartIsOk();
    RunKeeps(Start, evs);
    var s := Exec(Start, evs);
    forall p: nat
      ensures p in s.pagingOut <==> Pending(s, p)
      ensures p !in s.pagingOut ==> LastWritten(s.written, p) == LastCover(s.returned, |s.returned|, p)
    {
      InvPage(s, p);
    }
  }
}
