/**
What one call of service_WAITLIST does, independently of how it loops.
*/
module Batch {
  import opened PageSpec
  import opened PagerRun

  /** The supplies for `ws`, in order; the deallocate flag goes with the last. */
  function Supplies(ws: seq<Waiter>, data: Content, dealloc: bool, readOnly: bool): seq<Reply> {
    seq(|ws|, i requires 0 <= i < |ws| => Answered(ws[i], Supply(data, dealloc && i == |ws| - 1, readOnly)))
  }

  lemma {:induction false} SupplyAllReplies(pg: Page, ws: seq<Waiter>, data: Content, dealloc: bool, readOnly: bool)
    ensures SupplyAll(pg, ws, data, dealloc, readOnly).hist.replies ==
      pg.hist.replies + Supplies(ws, data, dealloc, readOnly)
    decreases |ws|
  {
    if ws != [] {
      var one := SupplyOne(pg, ws[0], data, dealloc && |ws| == 1, readOnly);
      SupplyAllReplies(one, ws[1..], data, dealloc, readOnly);
      var head := Answered(ws[0], Supply(data, dealloc && |ws| == 1, readOnly));
      assert Supplies(ws, data, dealloc, readOnly) == [head] + Supplies(ws[1..], data, dealloc, readOnly);
    }
  }

  /** `n` is the length of the batch: the first client alone if it may write and asked to, and otherwise
      the first client and the longest run of readers behind it. */
  ghost predicate IsBatch(ws: seq<Waiter>, allowWrite: bool, n: nat) {
    && 1 <= n <= |ws|
    && (if allowWrite && ws[0].write then n == 1
        else (forall i :: 1 <= i < n ==> !ws[i].write) && (n < |ws| ==> ws[n].write))
  }

  lemma BatchIsUnique(ws: seq<Waiter>, allowWrite: bool, n: nat, m: nat)
    requires IsBatch(ws, allowWrite, n) && IsBatch(ws, allowWrite, m)
    ensures n == m
  {
  }

  lemma LeaveAt(served: Page, rest: seq<Waiter>, write: bool, c: Client)
    ensures var r := Leave(served, rest, write);
            if rest != [] && c in served.entry.access
            then Count(r, c) == Count(served, c) + 1 && Internal(r, c) && Flush in Box(r, c)
            else Count(r, c) == Count(served, c) && Internal(r, c) == Internal(served, c)
  {
  }

  /** The batch, and only it, is served, in order, with the deallocate flag on the last supply; the
      rest waits on, and then everybody with access, and nobody else, is asked to flush. */
  lemma ServesOneBatch(pg: Page, data: Content, allowWrite: bool, dealloc: bool) returns (n: nat)
    requires pg.entry.wait != []
    ensures IsBatch(pg.entry.wait, allowWrite, n) && n == BatchSize(pg.entry.wait, allowWrite)
    ensures var ws, r := pg.entry.wait, Service(pg, data, allowWrite, dealloc);
            var write := allowWrite && ws[0].write;
            && r.entry == pg.entry.(access := pg.entry.access + Clients(ws[..n]), wait := ws[n..],
                 writeGranted := write)
            && r.hist.replies == pg.hist.replies + Supplies(ws[..n], data, dealloc, !write)
            && forall c :: if n < |ws| && c in r.entry.access
                           then Count(r, c) == Count(pg, c) + 1 && Internal(r, c) && Flush in Box(r, c)
                           else Count(r, c) == Count(pg, c) && Internal(r, c) == Internal(pg, c)
  {
    var ws := pg.entry.wait;
    n := BatchSize(ws, allowWrite);
    var write := WriteBatch(ws, allowWrite);
    assert forall i :: 1 <= i < |ws| ==> ws[i] == ws[1..][i - 1];
    ServiceEffect(pg, data, allowWrite, dealloc);
    SupplyAllEffect(pg, ws[..n], data, dealloc, !write);
    SupplyAllReplies(pg, ws[..n], data, dealloc, !write);
    LeaveEach(pg, SupplyAll(pg, ws[..n], data, dealloc, !write), ws[n..], write);
  }

  lemma LeaveEach(pg: Page, served: Page, rest: seq<Waiter>, write: bool)
    requires served.locks == pg.locks
    ensures var r := Leave(served, rest, write);
            forall c :: if rest != [] && c in served.entry.access
                        then Count(r, c) == Count(pg, c) + 1 && Internal(r, c) && Flush in Box(r, c)
                        else Count(r, c) == Count(pg, c) && Internal(r, c) == Internal(pg, c)
  {
    forall c
      ensures var r := Leave(served, rest, write);
              if rest != [] && c in served.entry.access
              then Count(r, c) == Count(pg, c) + 1 && Internal(r, c) && Flush in Box(r, c)
              else Count(r, c) == Count(pg, c) && Internal(r, c) == Internal(pg, c)
    {
      LeaveAt(served, rest, write, c);
    }
  }
}
