/**
Exactly when a synchronous lock_object can rely on write-back without the demuxer's serialization.
*/
module DurabilityLimits {
  import PageSpec
  import opened WriteBack
  import opened WriteBackProof
  import opened Durability

  ghost predicate InPass(s: State, p: nat) {
    exists u :: u in s.serving && s.serving[u].Writing? && p in s.serving[u].pages
  }

  /** Version `v` of `p` or a later one has been written, or the pass in progress is to write it. */
  ghost predicate Secured(s: State, p: nat, v: int) {
    LastWritten(s.written, p) >= v || (s.popped >= v && InPass(s, p))
  }

  /** The pass in progress will stop on the assertion that only a kernel's copy is overtaken. */
  ghost predicate Doomed(s: State) {
    s.popped < |s.returned| && !s.returned[s.popped].kernelCopy &&
    exists u :: u in s.serving && s.serving[u].Writing? && Committed(s, s.serving[u].pages) != s.serving[u].pages
  }

  /** Whatever happens from `s` on, when thread `t` has returned every version of its range that came
      before its last completion is written or superseded by one that is. */
  ghost predicate Guaranteed(s: State, t: Thread)
    requires t in s.waits && s.waits[t].OnWrite? && s.waits[t].seen <= |s.returned|
  {
    forall evs, p | Valid(s, evs) && ReturnedBy(Exec(s, evs), t) && Within(s.waits[t].range, p) ::
      LastWritten(Exec(s, evs).written, p) >= LastCover(s.returned, s.waits[t].seen, p)
  }

  predicate ReturnedBy(s: State, t: Thread) {
    t in s.waits && s.waits[t].Finished?
  }

  // ----- secured is enough

  ghost predicate Safe(s: State, t: Thread, p: nat, v: int) {
    LastWritten(s.written, p) >= v || (s.popped >= v && InPass(s, p) && t in s.waits && s.waits[t].OnWrite?)
  }

  lemma SafeStep(s: State, e: Event, t: Thread, p: nat, v: int)
    requires Inv(s) && WaitsOk(s) && Enabled(s, e) && Safe(s, t, p, v)
    ensures Safe(Step(s, e), t, p, v)
  {
    StepGrows(s, e, p);
    if LastWritten(s.written, p) < v {
      var u :| u in s.serving && s.serving[u].Writing? && p in s.serving[u].pages;
      var view := Serves(s.serving[u]);
      assert Sole(s, u) && PageOk(s, view, p);
      var r := Step(s, e);
      if e.EndPass? {
        assert false;
      } else {
        assert u in r.serving && r.serving[u].Writing? && r.serving[u].pages == s.serving[u].pages;
      }
    }
  }

  lemma {:induction false} SafeRun(s: State, evs: seq<Event>, t: Thread, p: nat, v: int)
    requires Inv(s) && WaitsOk(s) && Valid(s, evs) && Safe(s, t, p, v)
    ensures Safe(Exec(s, evs), t, p, v)
    decreases |evs|
  {
    if evs != [] {
      SafeStep(s, evs[0], t, p, v);
      StepKeeps(s, evs[0]);
      StepWaits(s, evs[0]);
      SafeRun(Step(s, evs[0]), evs[1..], t, p, v);
    }
  }

  // ----- and needed: a later block makes the rest of the queue drop the page

  /** The last return covers `p` and comes after the block that `t` waits for; no version of `p` from
      `v` on is written, or will be in this pass. */
  ghost predicate Losing(s: State, t: Thread, p: nat, v: int) {
    && Inv(s) && WaitsOk(s) && !Doomed(s) && s.returned != []
    && Covers(s.returned[|s.returned| - 1], p)
    && t in s.waits && s.waits[t].OnWrite? && s.waits[t].block < |s.returned| - 1
    && LastWritten(s.written, p) < v && (InPass(s, p) ==> s.popped < v)
  }

  ghost predicate Lost(s: State, t: Thread, p: nat, v: int) {
    ReturnedBy(s, t) && LastWritten(s.written, p) < v
  }

  /** A new pass writes only what nothing supersedes. */
  lemma SettlePass(s: State, t: Thread, p: nat)
    requires s.popped <= |s.returned| && (forall u :: u in s.serving ==> u == t)
    ensures var r := Settle(s, t);
            !Doomed(r) && (InPass(r, p) ==> LastCover(r.returned, |r.returned|, p) == r.popped)
    decreases |s.returned| - s.popped
  {
    if s.popped < |s.returned| {
      if ToWrite(s) == {} {
        SettlePass(Pop(s), t, p);
      } else {
        MatchingMeans(s.returned, s.popped, |s.returned|, p);
        var r := Settle(s, t);
        assert Committed(r, r.serving[t].pages) == ToWrite(s);
      }
    }
  }

  lemma PopLoses(s: State, t: Thread, p: nat, v: int, u: Thread)
    requires s.popped < |s.returned| && WaitsOk(s) && Sole(s, u)
    requires s.returned != [] && Covers(s.returned[|s.returned| - 1], p)
    requires t in s.waits && s.waits[t].OnWrite? && s.waits[t].block < |s.returned| - 1 && LastWritten(s.written, p) < v
    requires Inv(Settle(Pop(s), u)) && WaitsOk(Settle(Pop(s), u))
    ensures Losing(Settle(Pop(s), u), t, p, v) || Lost(Settle(Pop(s), u), t, p, v)
  {
    PopWaits(s);
    SettleFrame(Pop(s), u);
    SettlePass(Pop(s), u, p);
    assert WaitOk(s, s.waits[t]);
    var r := Settle(Pop(s), u);
    assert LastCover(r.returned, |r.returned|, p) == |r.returned| - 1;
  }

  function Left(s: State, u: Thread): int
    requires s.popped < |s.returned| && u in s.serving
  {
    if s.serving[u].Notifying? then -1
    else
      var b := s.returned[s.popped];
      2 * (b.first + b.npages - s.serving[u].next) + if s.serving[u].inCall then 0 else 1
  }

  /** The servicing thread's next step. */
  function NextEvent(s: State, u: Thread): Event
    requires s.popped < |s.returned| && u in s.serving
  {
    var pc := s.serving[u];
    if pc.Notifying? then EndNotify(u)
    else if pc.inCall then EndWrite(u)
    else if pc.next >= s.returned[s.popped].first + s.returned[s.popped].npages then EndPass(u, false)
    else if pc.next in pc.pages then BeginWrite(u) else SkipPage(u)
  }

  lemma NextInPass(s: State, t: Thread, p: nat, v: int, u: Thread)
    requires Losing(s, t, p, v) && s.popped < |s.returned| && Sole(s, u)
    requires s.serving[u].Writing? && !NextEvent(s, u).EndPass?
    ensures var e := NextEvent(s, u);
            && Enabled(s, e) && Losing(Step(s, e), t, p, v) && Step(s, e).popped == s.popped
            && Step(s, e).returned == s.returned && Sole(Step(s, e), u) && Left(Step(s, e), u) < Left(s, u)
  {
    var e := NextEvent(s, u);
    assert Good(s, Serves(s.serving[u]));
    assert Enabled(s, e);
    StepKeeps(s, e);
    StepWaits(s, e);
    var r := Step(s, e);
    assert r.serving[u].Writing? && r.serving[u].pages == s.serving[u].pages;
    assert Committed(r, r.serving[u].pages) == Committed(s, s.serving[u].pages);
    if e.BeginWrite? {
      WriteMore(s.written, Write(s.serving[u].next, s.popped), p);
    }
  }

  lemma NextPop(s: State, t: Thread, p: nat, v: int, u: Thread)
    requires Losing(s, t, p, v) && s.popped < |s.returned| && Sole(s, u)
    requires s.serving[u].Notifying? || NextEvent(s, u).EndPass?
    ensures var e := NextEvent(s, u);
            && Enabled(s, e) && Step(s, e).popped > s.popped && |Step(s, e).returned| == |s.returned|
            && (Losing(Step(s, e), t, p, v) || Lost(Step(s, e), t, p, v))
  {
    var e := NextEvent(s, u);
    assert Good(s, Serves(s.serving[u]));
    assert Enabled(s, e);
    StepKeeps(s, e);
    StepWaits(s, e);
    if e.EndPass? {
      var out := s.(pagingOut := s.pagingOut - Committed(s, s.serving[u].pages));
      PassWaits(s, out);
      PopWaits(out);
      SettleFrame(Pop(out), u);
      PopLoses(out, t, p, v, u);
    } else {
      PopWaits(s);
      SettleFrame(Pop(s), u);
      PopLoses(s, t, p, v, u);
    }
  }

  /** The servicing thread goes on until the block that `t` waits for is gone. */
  lemma Drain(s: State, t: Thread, p: nat, v: int, u: Thread) returns (evs: seq<Event>)
    requires Losing(s, t, p, v) && s.popped < |s.returned| && Sole(s, u)
    ensures Valid(s, evs) && Lost(Exec(s, evs), t, p, v)
    decreases |s.returned| - s.popped, Left(s, u) + 1
  {
    var e := NextEvent(s, u);
    var rest := [];
    if s.serving[u].Notifying? || e.EndPass? {
      NextPop(s, t, p, v, u);
      var r := Step(s, e);
      if !Lost(r, t, p, v) {
        assert WaitOk(r, r.waits[t]);
        var w :| Sole(r, w) && Good(r, Serves(r.serving[w]));
        rest := Drain(r, t, p, v, w);
      }
    } else {
      NextInPass(s, t, p, v, u);
      assert Good(s, Serves(s.serving[u]));
      rest := Drain(Step(s, e), t, p, v, u);
    }
    evs := [e] + rest;
    assert evs[1..] == rest;
  }

  /** A version that is not secured can be lost: one more return of the page is enough. */
  lemma Overtake(s: State, t: Thread, p: nat) returns (evs: seq<Event>)
    requires Inv(s) && WaitsOk(s) && !Doomed(s)
    requires t in s.waits && s.waits[t].OnWrite? && s.waits[t].seen <= |s.returned|
    requires !Secured(s, p, LastCover(s.returned, s.waits[t].seen, p))
    ensures Valid(s, evs) && Lost(Exec(s, evs), t, p, LastCover(s.returned, s.waits[t].seen, p))
  {
    var v := LastCover(s.returned, s.waits[t].seen, p);
    assert WaitOk(s, s.waits[t]);
    var u: Thread :| Sole(s, u) && Good(s, Serves(s.serving[u]));
    var e := Return(u + 1, Block(p, 1, true));
    var r := Step(s, e);
    StepKeeps(s, e);
    StepWaits(s, e);
    assert Sole(r, u) && r.serving == s.serving && r.written == s.written;
    StillCommitted(s, e, u, p, v);
    var rest := Drain(r, t, p, v, u);
    evs := [e] + rest;
    assert evs[1..] == rest;
  }

  /** The extra return dooms no pass that was not doomed. */
  lemma StillCommitted(s: State, e: Event, u: Thread, p: nat, v: int)
    requires Inv(s) && s.popped < |s.returned| && Sole(s, u) && !Doomed(s)
    requires e == Return(u + 1, Block(p, 1, true)) && v < |s.returned| && (v >= 0 ==> Covers(s.returned[v], p))
    requires InPass(s, p) ==> s.popped < v
    ensures !Doomed(Step(s, e))
  {
    var r := Step(s, e);
    if s.serving[u].Writing? && !s.returned[s.popped].kernelCopy {
      var pages := s.serving[u].pages;
      assert Good(s, Serves(s.serving[u]));
      assert Committed(s, pages) == pages;
      forall x | x in pages ensures x in Committed(r, pages) {
        assert x in Pages(s.returned[s.popped]);
        MatchingMeans(s.returned, s.popped, |s.returned|, x);
        MatchingMeans(r.returned, r.popped, |r.returned|, x);
        CoverMore(s.returned, e.block, x);
      }
    }
  }

  /** While `t` waits for a block, its versions are safe whatever comes if and only if each page's has
      already been written (or superseded), or the pass in progress is to write it. */
  lemma GuaranteedExactly(s: State, t: Thread)
    requires Inv(s) && WaitsOk(s) && !Doomed(s)
    requires t in s.waits && s.waits[t].OnWrite? && s.waits[t].seen <= |s.returned|
    ensures Guaranteed(s, t) <==>
            forall p | Within(s.waits[t].range, p) :: Secured(s, p, LastCover(s.returned, s.waits[t].seen, p))
  {
    var w := s.waits[t];
    if forall p | Within(w.range, p) :: Secured(s, p, LastCover(s.returned, w.seen, p)) {
      forall evs, p | Valid(s, evs) && ReturnedBy(Exec(s, evs), t) && Within(w.range, p)
        ensures LastWritten(Exec(s, evs).written, p) >= LastCover(s.returned, w.seen, p)
      {
        SafeRun(s, evs, t, p, LastCover(s.returned, w.seen, p));
      }
    } else {
      var p :| Within(w.range, p) && !Secured(s, p, LastCover(s.returned, w.seen, p));
      var evs := Overtake(s, t, p);
      assert !(LastWritten(Exec(s, evs).written, p) >= LastCover(s.returned, w.seen, p));
    }
  }

  // ----- a run that loses a version

  const Range0 := LockTable.Range(0, 1)

  const B := Block(5, 1, true)
  const C := Block(0, 1, true)

  lemma OnlyPage(s: State, p: nat)
    requires s.popped < |s.returned| && s.returned[s.popped] == Block(p, 1, true)
    ensures ToWrite(s) == if LastCover(s.returned, |s.returned|, p) == s.popped then {p} else {}
  {
    forall x: nat ensures x in ToWrite(s) <==> x == p && LastCover(s.returned, |s.returned|, p) == s.popped {
      MatchingMeans(s.returned, s.popped, |s.returned|, p);
      assert x in Pages(s.returned[s.popped]) <==> x == p;
    }
  }

  /** `s` can make the steps `evs` and is then `r`. */
  ghost predicate Leads(s: State, evs: seq<Event>, r: State) {
    Valid(s, evs) && Exec(s, evs) == r
  }

  lemma {:induction false} Then(s: State, evs: seq<Event>, m: State, more: seq<Event>, r: State)
    requires Leads(s, evs, m) && Leads(m, more, r)
    ensures Leads(s, evs + more, r)
    decreases |evs|
  {
    if evs == [] {
      assert evs + more == more;
    } else {
      assert (evs + more)[0] == evs[0] && (evs + more)[1..] == evs[1..] + more;
      Then(Step(s, evs[0]), evs[1..], m, more, r);
    }
  }

  lemma One(s: State, e: Event)
    requires Enabled(s, e)
    ensures Leads(s, [e], Step(s, e))
  {
    assert [e][1..] == [];
  }

  /** The first return is serviced by its own thread. */
  lemma First() returns (r: State)
    ensures Leads(Start, [Return(1, B)], r)
    ensures r == Start.(returned := [B], serving := map[1 := Writing({5}, 5, false)],
      pagingOut := Start.pagingOut + Pages(B))
  {
    OnlyPage(Start.(returned := Start.returned + [B], pagingOut := Start.pagingOut + Pages(B)), 5);
    r := Step(Start, Return(1, B));
    One(Start, Return(1, B));
  }

  /** Thread 9 locks page 0, which then comes back dirty. */
  lemma Second(s: State) returns (r: State)
    requires s.returned == [B] && s.popped == 0 && 2 !in s.serving && s.locks == map[] && s.waits == map[]
    ensures Leads(s, [LockObject(9, Range0, {7})] + [Return(2, C)], r)
    ensures r.returned == [B, C] && r.popped == 0 && r.serving == s.serving && r.written == s.written
    ensures r.locks == map[Range0 := map[7 := PageSpec.LockRecord(1, false)]] && r.waits == map[9 := OnLocks(Range0)]
  {
    var m := Step(s, LockObject(9, Range0, {7}));
    assert m.locks[Range0] == map[7 := PageSpec.LockRecord(1, false)];
    r := Step(m, Return(2, C));
    One(s, LockObject(9, Range0, {7}));
    One(m, Return(2, C));
    Then(s, [LockObject(9, Range0, {7})], m, [Return(2, C)], r);
  }

  /** The lock is answered, and thread 9 goes on to wait for the block. */
  lemma Third(s: State) returns (r: State)
    requires s.returned == [B, C] && s.popped == 0
    requires s.locks == map[Range0 := map[7 := PageSpec.LockRecord(1, false)]] && s.waits == map[9 := OnLocks(Range0)]
    ensures Leads(s, [LockReply(Range0, 7)] + [Search(9)], r)
    ensures r == s.(locks := r.locks, waits := map[9 := OnWrite(Range0, 2, 2, 1)])
  {
    var m := Step(s, LockReply(Range0, 7));
    assert LockTable.Replied(s.locks, Range0, 7) == map[];
    assert m.waits == map[9 := Woken(Range0, 2)];
    r := Step(m, Search(9));
    assert LastOverlap(m, Range0, 2) == 1;
    One(s, LockReply(Range0, 7));
    One(m, Search(9));
    Then(s, [LockReply(Range0, 7)], m, [Search(9)], r);
  }

  /** Page 0 comes back once more, and the first block is written. */
  lemma Fourth(s: State) returns (r: State)
    requires s.returned == [B, C] && s.popped == 0 && s.serving == map[1 := Writing({5}, 5, false)] && s.written == []
    ensures Leads(s, [Return(3, C)] + [BeginWrite(1)] + [EndWrite(1)], r)
    ensures r.returned == [B, C, C] && r.popped == 0 && r.serving == map[1 := Writing({5}, 6, false)]
    ensures r.written == [Write(5, 0)] && r.waits == s.waits
  {
    var m := Step(s, Return(3, C));
    var n := Step(m, BeginWrite(1));
    assert n.serving == map[1 := Writing({5}, 5, true)];
    r := Step(n, EndWrite(1));
    One(s, Return(3, C));
    One(m, BeginWrite(1));
    One(n, EndWrite(1));
    Then(s, [Return(3, C)], m, [BeginWrite(1)], n);
    Then(s, [Return(3, C)] + [BeginWrite(1)], n, [EndWrite(1)], r);
  }

  /** The block that thread 9 waits for is dropped. */
  lemma Fifth(s: State) returns (r: State)
    requires s.returned == [B, C, C] && s.popped == 0 && s.serving == map[1 := Writing({5}, 6, false)]
    requires s.waits == map[9 := OnWrite(Range0, 2, 2, 1)]
    ensures Leads(s, [EndPass(1, false)], r)
    ensures r.returned == s.returned && r.written == s.written && r.waits == map[9 := Finished(Range0, 2, 2)]
  {
    var out := s.(pagingOut := s.pagingOut - Committed(s, {5}));
    var one := Pop(out);
    OnlyPage(one, 0);
    assert LastCover(one.returned, 3, 0) == 2;
    var two := Pop(one);
    OnlyPage(two, 0);
    assert Settle(one, 1) == Settle(two, 1);
    assert two.waits == map[9 := Finished(Range0, 2, 2)];
    r := Step(s, EndPass(1, false));
    One(s, EndPass(1, false));
  }

  /** Without serialization the promise fails: block 1 is dropped because of block 2, and thread 9
      returns with its version of page 0 unwritten. */
  lemma DurabilityFails() returns (evs: seq<Event>)
    ensures evs == [Return(1, B)] + ([LockObject(9, Range0, {7})] + [Return(2, C)]) +
                   ([LockReply(Range0, 7)] + [Search(9)]) +
                   ([Return(3, C)] + [BeginWrite(1)] + [EndWrite(1)]) + [EndPass(1, false)]
    ensures Valid(Start, evs)
    ensures Promised(Exec(Start, evs), 9, 0, 1) && !WrittenSince(Exec(Start, evs), 0, 1)
  {
    var s1 := First();
    var s2 := Second(s1);
    var s3 := Third(s2);
    var s4 := Fourth(s3);
    var s5 := Fifth(s4);
    evs := [Return(1, B)];
    Then(Start, evs, s1, [LockObject(9, Range0, {7})] + [Return(2, C)], s2);
    evs := evs + ([LockObject(9, Range0, {7})] + [Return(2, C)]);
    Then(Start, evs, s2, [LockReply(Range0, 7)] + [Search(9)], s3);
    evs := evs + ([LockReply(Range0, 7)] + [Search(9)]);
    Then(Start, evs, s3, [Return(3, C)] + [BeginWrite(1)] + [EndWrite(1)], s4);
    evs := evs + ([Return(3, C)] + [BeginWrite(1)] + [EndWrite(1)]);
    Then(Start, evs, s4, [EndPass(1, false)], s5);
    evs := evs + [EndPass(1, false)];
  }
}
