/**
The pager object of libpager/pagemap.cc: handlers that load a pagemap entry into a temporary, change
it, and store it back, with loops over waiting clients and over the pages of a message.  Each method
is one critical section, and is proved to do to each page what PageSpec says.
*/
module Pager {
  import opened PageSpec
  import WriteBack

  class Pager {
    /** One record per page; a page not in the map is empty.  Each record holds the pagemap entry of
        its page and the page's part of `outstanding_locks`, NEXTERROR and the outgoing messages. */
    var pagemap: map<nat, Page>
    /** The entry being worked on (`tmp_pagemap_entry`). */
    var tmp: Entry
    var terminating: bool
    /** WRITEWAIT: the blocks returned dirty and not yet written out. */
    var writeWait: seq<WriteBack.Block>

    constructor ()
      ensures pagemap == map[] && !terminating && writeWait == []
    {
      pagemap, tmp, terminating, writeWait := map[], EmptyEntry, false, [];
    }

    function At(p: nat): Page
      reads this`pagemap
    {
      if p in pagemap then pagemap[p] else EmptyPage
    }

    /** Page `p` as it will be once the temporary is stored. */
    function Loaded(p: nat): Page
      reads this`pagemap, this`tmp
    {
      At(p).(entry := tmp)
    }

    /** The temporary is moved into the pagemap, and left with an unspecified value. */
    method Store(p: nat)
      modifies this`pagemap, this`tmp
      ensures At(p) == old(Loaded(p))
      ensures forall q: nat :: q != p ==> At(q) == old(At(q))
    {
      pagemap := pagemap[p := Loaded(p)];
      tmp := *;
    }

    method Load(p: nat)
      modifies this`tmp
      ensures tmp == At(p).entry && Loaded(p) == At(p)
    {
      tmp := At(p).entry;
    }

    method InternalFlushRequest(c: Client, p: nat)
      modifies this`pagemap
      ensures At(p) == FlushAll(old(At(p)), {c})
      ensures forall q: nat :: q != p ==> At(q) == old(At(q))
    {
      var pg := At(p);
      var record := LockRecord(Count(pg, c) + 1, true);
      var after := Post(pg.(locks := pg.locks[c := record]), c, Flush);
      pagemap := pagemap[p := after];
      FlushSingle(pg, c);
    }

    method FlushClients(cs: set<Client>, p: nat)
      modifies this`pagemap
      ensures At(p) == FlushAll(old(At(p)), cs)
      ensures forall q: nat :: q != p ==> At(q) == old(At(q))
    {
      ghost var before := At(p);
      FlushNone(before);
      var rest := cs;
      assert cs - rest == {};
      while rest != {}
        invariant rest <= cs
        invariant At(p) == FlushAll(before, cs - rest)
        invariant forall q: nat :: q != p ==> At(q) == old(At(q))
        decreases rest
      {
        var c :| c in rest;
        FlushOneMore(before, cs - rest, c);
        assert cs - (rest - {c}) == cs - rest + {c};
        InternalFlushRequest(c, p);
        rest := rest - {c};
      }
      assert cs - {} == cs;
    }

    /** memory_object_data_supply to the first waiting client, which gets access and is popped. */
    method SupplyFirst(p: nat, data: Content, dealloc: bool, readOnly: bool)
      requires tmp.wait != []
      modifies this`pagemap, this`tmp
      ensures forall q: nat :: q != p ==> At(q) == old(At(q))
      ensures Loaded(p) == Pop(SupplyOne(old(Loaded(p)), old(tmp.wait[0]), data, dealloc, readOnly))
      ensures tmp.wait == old(tmp.wait)[1..]
    {
      var w := tmp.wait[0];
      var m := Supply(data, dealloc, readOnly);
      var sent := Log(Post(At(p), w.client, m), Answered(w, m));
      var writers := sent.hist.writers + if readOnly then {} else {w.client};
      pagemap := pagemap[p := sent.(hist := sent.hist.(writers := writers))];
      tmp := tmp.(access := tmp.access + {w.client});
      tmp := tmp.(wait := tmp.wait[1..]);
    }

    /** One round of the do-while loop: the client just popped is supplied, and keeps the memory unless
        another reader follows it. */
    method SupplyRound(p: nat, data: Content, dealloc: bool, ghost ws: seq<Waiter>, ghost i: nat, ghost n: nat)
      returns (more: bool)
      requires i < n && Readers(ws, n) && tmp.wait == ws[i..]
      modifies this`pagemap, this`tmp
      ensures forall q: nat :: q != p ==> At(q) == old(At(q))
      ensures tmp.wait == ws[i + 1..] && more == (i + 1 < n)
      ensures SupplyAll(WithWait(Loaded(p), ws), ws[i + 1..n], data, dealloc, true) ==
              old(SupplyAll(WithWait(Loaded(p), ws), ws[i..n], data, dealloc, true))
    {
      ghost var cur := Loaded(p);
      var last := if |tmp.wait| == 1 then dealloc else if tmp.wait[1].write then dealloc else false;
      SupplyFirst(p, data, last, true);
      SupplyStep(cur, Loaded(p), ws, i, n, data, dealloc, last);
      more := tmp.wait != [] && !tmp.wait[0].write;
    }

    /** The do-while loop of service_WAITLIST: the first client, whatever it asked for, and the
        readers that follow it. */
    method SupplyReaders(p: nat, data: Content, dealloc: bool, ghost n: nat)
      requires 1 <= n && Readers(tmp.wait, n)
      modifies this`pagemap, this`tmp
      ensures forall q: nat :: q != p ==> At(q) == old(At(q))
      ensures Loaded(p) == WithWait(SupplyAll(old(Loaded(p)), old(tmp.wait)[..n], data, dealloc, true),
        old(tmp.wait)[n..])
    {
      ghost var ws := tmp.wait;
      ghost var goal := SupplyAll(WithWait(Loaded(p), ws), ws[0..n], data, dealloc, true);
      ghost var before := Loaded(p);
      ghost var i := 1;
      var more := SupplyRound(p, data, dealloc, ws, 0, n);
      while more
        invariant 1 <= i <= n && tmp.wait == ws[i..] && more == (i < n)
        invariant forall q: nat :: q != p ==> At(q) == old(At(q))
        invariant SupplyAll(WithWait(Loaded(p), ws), ws[i..n], data, dealloc, true) == goal
        decreases n - i
      {
        more := SupplyRound(p, data, dealloc, ws, i, n);
        i := i + 1;
      }
      RoundsDone(before, Loaded(p), ws, n, data, dealloc);
    }

    /** Serves the first batch of the loaded entry's WAITLIST; an empty WAITLIST would throw. */
    method ServiceWaitlist(p: nat, data: Content, allowWrite: bool, dealloc: bool)
      requires terminating || tmp.wait != []
      modifies this`pagemap, this`tmp
      ensures forall q: nat :: q != p ==> At(q) == old(At(q))
      ensures Loaded(p) == if terminating then old(Loaded(p)) else Service(old(Loaded(p)), data, allowWrite, dealloc)
    {
      if terminating {
        return;
      }
      ghost var before, ws := Loaded(p), tmp.wait;
      var write := allowWrite && tmp.wait[0].write;
      if write {
        SupplyFirst(p, data, dealloc, false);
        OneSupply(before, ws, data, dealloc, false);
      } else {
        ReadersFollow(ws);
        SupplyReaders(p, data, dealloc, BatchSize(ws, allowWrite));
      }
      ghost var n := BatchSize(ws, allowWrite);
      ghost var served := SupplyAll(before, ws[..n], data, dealloc, !write);
      assert Loaded(p) == WithWait(served, ws[n..]);
      LeaveLoaded(p, served, ws[n..], write);
    }

    /** The end of service_WAITLIST: note the access granted, and flush if anyone still waits. */
    method LeaveLoaded(p: nat, ghost served: Page, ghost rest: seq<Waiter>, write: bool)
      requires Loaded(p) == WithWait(served, rest)
      modifies this`pagemap, this`tmp
      ensures forall q: nat :: q != p ==> At(q) == old(At(q))
      ensures Loaded(p) == Leave(served, rest, write)
    {
      tmp := tmp.(writeGranted := write);
      if tmp.wait != [] {
        FlushEntry(At(p), tmp, tmp.access);
        FlushClients(tmp.access, p);
      }
    }

    /** A client that has the page is made to flush it, so that it will ask again and find the error. */
    method FlushForError(p: nat, w: Waiter, code: int)
      modifies this`pagemap
      ensures forall q: nat :: q != p ==> At(q) == old(At(q))
      ensures Loaded(p) == Postponed(old(Loaded(p)), w, code)
    {
      FlushEntry(At(p), tmp, {w.client});
      InternalFlushRequest(w.client, p);
      var pg := At(p);
      pagemap := pagemap[p := Log(pg.(nextError := pg.nextError + [LateError(w.client, code)]), Deferred(w))];
    }

    /** One waiting client of send_error_to_WAITLIST. */
    method SendErrorTo(p: nat, w: Waiter)
      modifies this`pagemap
      ensures forall q: nat :: q != p ==> At(q) == old(At(q))
      ensures Loaded(p) == ErrorOne(old(Loaded(p)), w)
    {
      if w.client in tmp.access {
        FlushForError(p, w, tmp.error);
      } else {
        pagemap := pagemap[p := Log(Post(At(p), w.client, Error(tmp.error)), Answered(w, Error(tmp.error)))];
      }
    }

    method SendErrorToWaitlist(p: nat)
      modifies this`pagemap, this`tmp
      ensures forall q: nat :: q != p ==> At(q) == old(At(q))
      ensures Loaded(p) == SendError(old(Loaded(p)))
    {
      ghost var goal := ErrorAll(Loaded(p), tmp.wait);
      ghost var e := tmp;
      var i := 0;
      assert tmp.wait[0..] == tmp.wait;
      while i < |tmp.wait|
        invariant i <= |tmp.wait| && tmp == e
        invariant forall q: nat :: q != p ==> At(q) == old(At(q))
        invariant ErrorAll(Loaded(p), e.wait[i..]) == goal
      {
        assert e.wait[i..][1..] == e.wait[i + 1..];
        SendErrorTo(p, tmp.wait[i]);
        i := i + 1;
      }
      tmp := tmp.(wait := []);
    }

    /** The end of an unlock; an empty WAITLIST would throw. */
    method FinishUnlock(p: nat, err: int)
      requires tmp.wait != []
      modifies this`pagemap, this`tmp
      ensures forall q: nat :: q != p ==> At(q) == old(At(q))
      ensures Loaded(p) == FinalizeUnlock(old(Loaded(p)), err)
    {
      var w := tmp.wait[0];
      tmp := tmp.(wait := tmp.wait[1..]);
      assert Loaded(p) == Pop(old(Loaded(p)));
      if err == KERN_SUCCESS {
        var sent := Log(Post(At(p), w.client, Grant), Answered(w, Grant));
        pagemap := pagemap[p := sent.(hist := sent.hist.(writers := sent.hist.writers + {w.client}))];
        tmp := tmp.(writeGranted := true);
        if tmp.wait != [] {
          FlushEntry(At(p), tmp, {w.client});
          InternalFlushRequest(w.client, p);
        }
      } else {
        FlushForError(p, w, err);
      }
    }

    method AddWaiter(p: nat, c: Client, write: bool)
      modifies this`pagemap, this`tmp
      ensures forall q: nat :: q != p ==> At(q) == old(At(q))
      ensures Loaded(p) == Enqueue(old(Loaded(p)), c, write)
    {
      tmp := tmp.(wait := tmp.wait + [Waiter(c, write)]);
      var pg := At(p);
      pagemap := pagemap[p := pg.(hist := pg.hist.(asked := pg.hist.asked + [Waiter(c, write)]))];
    }

    method RemoveClient(p: nat, c: Client)
      modifies this`pagemap, this`tmp
      ensures forall q: nat :: q != p ==> At(q) == old(At(q))
      ensures Loaded(p) == Evict(old(Loaded(p)), c)
    {
      tmp := tmp.(access := tmp.access - {c});
      var pg := At(p);
      pagemap := pagemap[p := pg.(hist := pg.hist.(writers := pg.hist.writers - {c}))];
    }

    method FlushLoaded(p: nat)
      modifies this`pagemap
      ensures forall q: nat :: q != p ==> At(q) == old(At(q))
      ensures Loaded(p) == FlushAll(old(Loaded(p)), tmp.access)
    {
      FlushEntry(At(p), tmp, tmp.access);
      FlushClients(tmp.access, p);
    }

    /** The body of internal_lock_completed's first loop, for one page. */
    method CompleteOnePage(c: Client, p: nat) returns (ok: bool, op: Op)
      modifies this`pagemap, this`tmp
      ensures forall q: nat :: q != p ==> At(q) == old(At(q))
      ensures Agrees(CompleteInternal(old(At(p)), c), ok, At(p), op)
    {
      op := Done;
      if At(p).entry.writeGranted {
        return false, op;
      }
      if c in At(p).entry.access && At(p).entry.wait != [] {
        Load(p);
        RemoveClient(p, c);
        if tmp.access == {} {
          if !tmp.invalid {
            op := PageIn;
          } else {
            SendErrorToWaitlist(p);
          }
        } else if |tmp.access| == 1 && tmp.wait[0].client in tmp.access {
          op := Unlock;
        }
        Store(p);
      }
      ok := true;
    }

    /** internal_lock_completed up to the point where the lock is dropped, over a range of pages. */
    method BeginLockCompleted(c: Client, first: nat, npages: nat) returns (ok: bool, ops: array<Op>)
      modifies this`pagemap, this`tmp
      ensures fresh(ops) && ops.Length == npages
      ensures forall q: nat :: !(first <= q < first + npages) ==> At(q) == old(At(q))
      ensures terminating ==> ok && (forall q: nat :: At(q) == old(At(q))) && forall i :: 0 <= i < npages ==>
        ops[i] == Done
      ensures !terminating ==> ok == forall p: nat :: first <= p < first + npages ==>
        CompleteInternal(old(At(p)), c).Go?
      ensures !terminating && ok ==>
        forall i :: 0 <= i < npages ==> CompleteInternal(old(At(first + i)), c) == Go(At(first + i), ops[i])
    {
      ops := new Op[npages](_ => Done);
      if terminating {
        return true, ops;
      }
      var i := 0;
      while i < npages
        invariant i <= npages
        invariant forall q: nat :: !(first <= q < first + i) ==> At(q) == old(At(q))
        invariant forall j :: 0 <= j < i ==> CompleteInternal(old(At(first + j)), c) == Go(At(first + j), ops[j])
      {
        var op;
        ok, op := CompleteOnePage(c, first + i);
        if !ok {
          return;
        }
        ops[i] := op;
        i := i + 1;
      }
      ok := true;
      forall p: nat | first <= p < first + npages ensures CompleteInternal(old(At(p)), c).Go? {
        var j := p - first;
        assert CompleteInternal(old(At(first + j)), c) == Go(At(first + j), ops[j]);
      }
    }

    /** The rest of a page-in, for one page. */
    method EndPageInAt(p: nat, err: int, data: Content, writeLock: bool)
      requires At(p).entry.wait != []
      modifies this`pagemap, this`tmp
      ensures forall q: nat :: q != p ==> At(q) == old(At(q))
      ensures At(p) == if terminating then PageInClosing(old(At(p)), err)
        else EndPageIn(old(At(p)), err, data, writeLock)
    {
      Load(p);
      tmp := tmp.(error := err);
      if err == KERN_SUCCESS {
        ServiceWaitlist(p, data, !writeLock, true);
      } else {
        SendErrorToWaitlist(p);
      }
      Store(p);
    }

    /** The body of internal_lock_completed's last loop, for one page. */
    method EndAt(p: nat, op: Op, err: int, data: Content, writeLock: bool)
      requires op != Done ==> At(p).entry.wait != []
      modifies this`pagemap, this`tmp
      ensures forall q: nat :: q != p ==> At(q) == old(At(q))
      ensures At(p) == Ended(old(At(p)), op, err, data, writeLock, terminating)
    {
      if op == PageIn {
        EndPageInAt(p, err, data, writeLock);
      } else if op == Unlock {
        Load(p);
        FinishUnlock(p, err);
        Store(p);
      }
    }

    /** internal_lock_completed from the point where the lock is taken again. */
    method EndLockCompleted(first: nat, ops: array<Op>, err: seq<int>, data: seq<Content>, writeLock: seq<bool>)
      requires |err| == |data| == |writeLock| == ops.Length
      requires forall i :: 0 <= i < ops.Length && ops[i] != Done ==> At(first + i).entry.wait != []
      modifies this`pagemap, this`tmp
      ensures forall q: nat :: !(first <= q < first + ops.Length) ==> At(q) == old(At(q))
      ensures forall i :: 0 <= i < ops.Length ==>
        At(first + i) == Ended(old(At(first + i)), ops[i], err[i], data[i], writeLock[i], terminating)
    {
      var i := 0;
      while i < ops.Length
        invariant i <= ops.Length
        invariant forall q: nat :: !(first <= q < first + i) ==> At(q) == old(At(q))
        invariant forall j :: 0 <= j < i ==>
          At(first + j) == Ended(old(At(first + j)), ops[j], err[j], data[j], writeLock[j], terminating)
      {
        EndAt(first + i, ops[i], err[i], data[i], writeLock[i]);
        i := i + 1;
      }
    }

    /** Takes the client's first late error for page `p` off NEXTERROR and sends it. */
    method TakeLateError(c: Client, p: nat) returns (found: bool)
      modifies this`pagemap
      ensures forall q: nat :: q != p ==> At(q) == old(At(q))
      ensures found == (FirstError(old(At(p)).nextError, c) < |old(At(p)).nextError|)
      ensures !found ==> At(p) == old(At(p))
      ensures found ==> DataRequest(old(At(p)), c, false) == DataRequest(old(At(p)), c, true) == Go(At(p), Done)
    {
      var errors := At(p).nextError;
      var i := 0;
      while i < |errors| && errors[i].client != c
        invariant i <= |errors|
        invariant forall j :: 0 <= j < i ==> errors[j].client != c
      {
        i := i + 1;
      }
      found := i < |errors|;
      if found {
        var left := At(p).(nextError := errors[..i] + errors[i + 1..]);
        pagemap := pagemap[p := Refuse(left, c, errors[i].code)];
      }
    }

    /** data_request up to pager_read_page. */
    method BeginDataRequest(c: Client, p: nat, write: bool) returns (ok: bool, op: Op)
      modifies this`pagemap, this`tmp
      ensures forall q: nat :: q != p ==> At(q) == old(At(q))
      ensures terminating ==> ok && At(p) == old(At(p)) && op == Done
      ensures !terminating ==> Agrees(DataRequest(old(At(p)), c, write), ok, At(p), op)
    {
      ok, op := true, Done;
      if terminating {
        return;
      }
      var late := TakeLateError(c, p);
      if late {
        return;
      }
      Load(p);
      FlushNone(At(p));
      if tmp.pagingOut {
        if tmp.wait == [] && tmp.access != {} {
          FlushLoaded(p);
        }
        AddWaiter(p, c, write);
        Store(p);
        return;
      }
      if c in tmp.access && tmp.wait != [] {
        AddWaiter(p, c, write);
        Store(p);
        ok, op := CompleteOnePage(c, p);
        return;
      }
      ok, op := AskForPage(c, p, write);
    }

    /** data_request from line 205 on: nobody is ahead of this client that it was itself holding up. */
    method AskForPage(c: Client, p: nat, write: bool) returns (ok: bool, op: Op)
      requires tmp == At(p).entry && !tmp.pagingOut && !(c in tmp.access && tmp.wait != [])
      requires FirstError(At(p).nextError, c) == |At(p).nextError|
      modifies this`pagemap, this`tmp
      ensures forall q: nat :: q != p ==> At(q) == old(At(q))
      ensures Agrees(DataRequest(old(At(p)), c, write), ok, At(p), op)
    {
      ok, op := true, Done;
      if c in tmp.access {
        RemoveClient(p, c);
        tmp := tmp.(writeGranted := false);
      }
      if tmp.wait != [] {
        AddWaiter(p, c, write);
      } else if tmp.writeGranted {
        AddWaiter(p, c, write);
        FlushLoaded(p);
      } else if write && tmp.access != {} {
        AddWaiter(p, c, write);
        FlushLoaded(p);
      } else {
        if tmp.invalid {
          pagemap := pagemap[p := Refuse(At(p), c, tmp.error)];
        }
        AddWaiter(p, c, write);
        op := PageIn;
      }
      Store(p);
    }

    /** lock_completed for the range that is exactly page `p`. */
    method BeginLockReply(c: Client, p: nat) returns (ok: bool, op: Op)
      modifies this`pagemap, this`tmp
      ensures forall q: nat :: q != p ==> At(q) == old(At(q))
      ensures !terminating ==> Agrees(LockCompleted(old(At(p)), c), ok, At(p), op)
      ensures terminating ==> ok == (Count(old(At(p)), c) > 0) && op == Done
      ensures terminating && ok ==>
        At(p) == old(At(p)).(locks := At(p).locks) && Count(At(p), c) == Count(old(At(p)), c) - 1 &&
        At(p).locks - {c} == old(At(p)).locks - {c}
    {
      ok, op := true, Done;
      var pg := At(p);
      if Count(pg, c) == 0 {
        return false, op;
      }
      var internal := false;
      if pg.locks[c].count == 1 {
        internal := pg.locks[c].internal;
        pagemap := pagemap[p := pg.(locks := pg.locks - {c})];
      } else {
        pagemap := pagemap[p := pg.(locks := pg.locks[c := pg.locks[c].(count := pg.locks[c].count - 1)])];
      }
      if internal && !terminating {
        ok, op := CompleteOnePage(c, p);
      }
    }

    /** data_unlock of one page up to pager_unlock_page. */
    method BeginDataUnlock(c: Client, p: nat) returns (ok: bool, op: Op)
      modifies this`pagemap, this`tmp
      ensures forall q: nat :: q != p ==> At(q) == old(At(q))
      ensures terminating ==> ok && At(p) == old(At(p)) && op == Done
      ensures !terminating ==> Agrees(DataUnlock(old(At(p)), c), ok, At(p), op)
    {
      ok, op := true, Done;
      if terminating {
        return;
      }
      Load(p);
      if c !in tmp.access || tmp.writeGranted || tmp.pagingOut {
        return false, op;
      }
      var writer := false;
      var i := 0;
      while i < |tmp.wait|
        invariant i <= |tmp.wait|
        invariant writer == exists j :: 0 <= j < i && tmp.wait[j].write
      {
        writer := writer || tmp.wait[i].write;
        i := i + 1;
      }
      if writer {
      } else if tmp.wait != [] {
        AddWaiter(p, c, true);
      } else if |tmp.access| > 1 {
        AddWaiter(p, c, true);
        FlushLoaded(p);
      } else {
        AddWaiter(p, c, true);
        op := Unlock;
      }
      Store(p);
    }

    /** data_return once the client has given the page up. */
    method ServeAfterReturn(p: nat, data: Content, dirty: bool) returns (op: Op)
      modifies this`pagemap, this`tmp
      ensures forall q: nat :: q != p ==> At(q) == old(At(q))
      ensures Go(Loaded(p), op) == AfterReturn(old(Loaded(p)), data, dirty, terminating)
    {
      op := Done;
      if tmp.access == {} && tmp.wait != [] {
        ServiceWaitlist(p, data, true, false);
      } else if |tmp.access| == 1 && !tmp.writeGranted && tmp.wait != [] && tmp.wait[0].client in tmp.access &&
        !terminating {
        op := Unlock;
      } else if tmp.access == {} && tmp.wait == [] && !dirty {
        tmp := tmp.(invalid := false, error := KERN_SUCCESS);
        pagemap := pagemap[p := At(p).(nextError := [])];
      }
    }

    /** The body of data_return's loop, for one page. */
    method ReturnOnePage(c: Client, p: nat, data: Content, dirty: bool, kernelCopy: bool) returns (op: Op)
      modifies this`pagemap, this`tmp
      ensures forall q: nat :: q != p ==> At(q) == old(At(q))
      ensures Agrees(Returned(old(At(p)), c, data, dirty, kernelCopy, terminating), !(dirty && op == Unlock), At(p), op)
    {
      op := Done;
      Load(p);
      if !kernelCopy {
        if c != MACH_PORT_DEAD {
          RemoveClient(p, c);
        }
        op := ServeAfterReturn(p, data, dirty);
      }
      if dirty {
        tmp := tmp.(pagingOut := true);
      }
      Store(p);
    }

    /** data_return up to the point where it drops the lock or goes on to WRITEWAIT. */
    method BeginDataReturn(c: Client, first: nat, data: seq<Content>, dirty: bool, kernelCopy: bool)
      returns (ok: bool, ops: array<Op>)
      modifies this`pagemap, this`tmp
      ensures fresh(ops) && ops.Length == |data|
      ensures forall q: nat :: !(first <= q < first + |data|) ==> At(q) == old(At(q))
      ensures forall i :: 0 <= i < |data| ==>
        Agrees(Returned(old(At(first + i)), c, data[i], dirty, kernelCopy, terminating),
               !(dirty && ops[i] == Unlock), At(first + i), ops[i])
      ensures ok == !(dirty && Unlock in ops[..])
    {
      ops := new Op[|data|](_ => Done);
      var unlocks := false;
      var i := 0;
      while i < |data|
        invariant i <= |data|
        invariant forall q: nat :: !(first <= q < first + i) ==> At(q) == old(At(q))
        invariant unlocks == (Unlock in ops[..i])
        invariant forall j :: 0 <= j < i ==>
          Agrees(Returned(old(At(first + j)), c, data[j], dirty, kernelCopy, terminating),
                 !(dirty && ops[j] == Unlock), At(first + j), ops[j])
      {
        var op := ReturnOnePage(c, first + i, data[i], dirty, kernelCopy);
        ops[i] := op;
        unlocks := unlocks || op == Unlock;
        assert ops[..i + 1] == ops[..i] + [op];
        i := i + 1;
      }
      ok := !(unlocks && dirty);
      assert ops[..i] == ops[..];
    }

    /** How many blocks on WRITEWAIT cover page `p`. */
    method MatchingPageCount(p: nat) returns (count: nat)
      ensures count == WriteBack.Matching(writeWait, 0, |writeWait|, p)
    {
      count := 0;
      var i := 0;
      while i < |writeWait|
        invariant i <= |writeWait|
        invariant count == WriteBack.Matching(writeWait, 0, i, p)
      {
        if writeWait[i].first <= p && writeWait[i].first + writeWait[i].npages >= p + 1 {
          count := count + 1;
        }
        i := i + 1;
      }
    }

    /** The start of service_first_WRITEWAIT_entry: which pages of the first block to write. */
    method ChoosePages() returns (todo: array<bool>)
      requires writeWait != []
      ensures fresh(todo) && todo.Length == writeWait[0].npages
      ensures forall i :: 0 <= i < todo.Length ==> todo[i] == LastOnQueue(writeWait, writeWait[0].first + i)
    {
      var block := writeWait[0];
      todo := new bool[block.npages];
      var i := 0;
      while i < block.npages
        invariant i <= block.npages
        invariant forall j :: 0 <= j < i ==> todo[j] == LastOnQueue(writeWait, block.first + j)
      {
        var count := MatchingPageCount(block.first + i);
        todo[i] := count == 1;
        i := i + 1;
      }
    }

    /** One page of the first block after pager_write_page; `ok` is that the assertion holds. */
    method EndWriteAt(p: nat, err: int, data: Content, kernelCopy: bool) returns (ok: bool)
      modifies this`pagemap, this`tmp
      ensures forall q: nat :: q != p ==> At(q) == old(At(q))
      ensures Agrees(Written(old(At(p)), err, data, kernelCopy, LastOnQueue(writeWait, p), terminating), ok, At(p),
        Done)
    {
      Load(p);
      tmp := if err == KERN_SUCCESS then tmp.(invalid := false) else tmp.(invalid := true, error := err);
      var count := MatchingPageCount(p);
      if count == 1 {
        tmp := tmp.(pagingOut := false);
        if !kernelCopy {
          if tmp.wait != [] {
            ServiceWaitlist(p, data, true, false);
          } else {
            tmp := tmp.(invalid := false, error := KERN_SUCCESS);
            pagemap := pagemap[p := At(p).(nextError := [])];
          }
        }
      } else if !kernelCopy {
        return false;
      }
      ok := true;
      Store(p);
    }

    /** The rest of service_first_WRITEWAIT_entry, up to the notifications: the pages that were written. */
    method EndWrites(todo: array<bool>, err: seq<int>, data: seq<Content>) returns (ok: bool)
      requires writeWait != [] && todo.Length == |err| == |data| == writeWait[0].npages
      modifies this`pagemap, this`tmp
      ensures forall q: nat :: !WriteBack.Covers(writeWait[0], q) ==> At(q) == old(At(q))
      ensures ok ==> forall i :: 0 <= i < todo.Length ==>
        if todo[i]
        then Agrees(WrittenAt(old(At(writeWait[0].first + i)), err[i], data[i], writeWait, writeWait[0].first + i,
          terminating),
                    true, At(writeWait[0].first + i), Done)
        else At(writeWait[0].first + i) == old(At(writeWait[0].first + i))
      ensures ok == forall i :: 0 <= i < todo.Length && todo[i] ==>
        writeWait[0].kernelCopy || LastOnQueue(writeWait, writeWait[0].first + i)
    {
      var block := writeWait[0];
      var i := 0;
      while i < block.npages
        invariant i <= block.npages
        invariant forall q: nat :: !(block.first <= q < block.first + i) ==> At(q) == old(At(q))
        invariant forall j :: 0 <= j < i ==>
          if todo[j]
          then Agrees(WrittenAt(old(At(block.first + j)), err[j], data[j], writeWait, block.first + j, terminating),
                      true, At(block.first + j), Done)
          else At(block.first + j) == old(At(block.first + j))
        invariant forall j :: 0 <= j < i && todo[j] ==> block.kernelCopy || LastOnQueue(writeWait, block.first + j)
      {
        if todo[i] {
          ok := EndWriteAt(block.first + i, err[i], data[i], block.kernelCopy);
          if !ok {
            return;
          }
        }
        i := i + 1;
      }
      ok := true;
    }

    /** The loop of drop_client over the pagemap.  It takes the client off every ACCESSLIST; the loop over
        WAITLIST that follows edits a copy, and so changes nothing. */
    method DropFromPages(c: Client)
      modifies this`pagemap, this`tmp
      ensures forall q: nat :: At(q) == DropAccess(old(At(q)), c)
    {
      var todo := pagemap.Keys;
      while todo != {}
        invariant forall q: nat :: At(q) == if q in todo then old(At(q)) else DropAccess(old(At(q)), c)
        decreases todo
      {
        var p :| p in todo;
        if c in At(p).entry.access {
          Load(p);
          RemoveClient(p, c);
          tmp := tmp.(writeGranted := false);
          Store(p);
        }
        todo := todo - {p};
      }
    }

    /** The clients that lock_object signals: those with access to a page of the range, or when only
        modified data is wanted, those with write access. */
    method ClientsToSignal(first: nat, npages: nat, onlyWriters: bool) returns (cs: set<Client>)
      ensures forall c :: c in cs <==> Signalled(c, first, first + npages, onlyWriters)
    {
      cs := {};
      var p := first;
      while p < first + npages
        invariant first <= p <= first + npages
        invariant forall c :: c in cs <==> Signalled(c, first, p, onlyWriters)
      {
        ghost var before := cs;
        if !onlyWriters || At(p).entry.writeGranted {
          cs := cs + At(p).entry.access;
        }
        forall c ensures c in cs <==> Signalled(c, first, p + 1, onlyWriters) {
          assert Signalled(c, first, p, onlyWriters) ==> Signalled(c, first, p + 1, onlyWriters);
        }
        p := p + 1;
      }
    }

    ghost predicate Signalled(c: Client, first: nat, end: nat, onlyWriters: bool)
      reads this
    {
      exists p :: first <= p < end && c in At(p).entry.access && (!onlyWriters || At(p).entry.writeGranted)
    }
  }

  /** A method's results are the outcome that PageSpec gives. */
  ghost predicate Agrees(out: Outcome, ok: bool, pg: Page, op: Op) {
    ok == out.Go? && (ok ==> out == Go(pg, op))
  }

  /** The end of a page-in once the pager is shutting down. */
  function PageInClosing(pg: Page, err: int): Page {
    var noted := pg.(entry := pg.entry.(error := err));
    if err == KERN_SUCCESS then noted else SendError(noted)
  }

  /** The second critical section that belongs to `op`. */
  function Ended(pg: Page, op: Op, err: int, data: Content, writeLock: bool, terminating: bool): Page
    requires op != Done ==> pg.entry.wait != []
  {
    match op
    case Done => pg
    case PageIn => if terminating then PageInClosing(pg, err) else EndPageIn(pg, err, data, writeLock)
    case Unlock => FinalizeUnlock(pg, err)
  }

  /** What data_return does once the client has given the page up; nobody is served or unlocked
      when the pager is shutting down. */
  function AfterReturn(pg: Page, data: Content, dirty: bool, terminating: bool): (out: Outcome)
    ensures out.Go? && out.op != PageIn
  {
    var e := pg.entry;
    if e.access == {} && e.wait != [] then Go(if terminating then pg else Service(pg, data, true, false), Done)
    else if |e.access| == 1 && !e.writeGranted && e.wait != [] && e.wait[0].client in e.access &&
      !terminating then Go(pg, Unlock)
    else if e.access == {} && e.wait == [] && !dirty then Go(ClearErrors(pg), Done)
    else Go(pg, Done)
  }

  /** One page of data_return. */
  function Returned(pg: Page, c: Client, data: Content, dirty: bool, kernelCopy: bool,
      terminating: bool): (out: Outcome)
    ensures !terminating ==> out == DataReturn(pg, c, data, dirty, kernelCopy)
  {
    var left := if c == MACH_PORT_DEAD then pg else Evict(pg, c);
    var served := if kernelCopy then Go(pg, Done) else AfterReturn(left, data, dirty, terminating);
    if !dirty then served
    else if served.op == Unlock then Stop
    else Go(served.page.(entry := served.page.entry.(pagingOut := true)), Done)
  }

  /** No block on WRITEWAIT other than the one in hand covers the page. */
  predicate LastOnQueue(queue: seq<WriteBack.Block>, p: nat) {
    WriteBack.Matching(queue, 0, |queue|, p) == 1
  }

  /** EndWrite when the pager may be shutting down, in which case nobody is served. */
  function Written(pg: Page, err: int, data: Content, kernelCopy: bool, last: bool, terminating: bool): (out: Outcome)
    ensures !terminating ==> out == EndWrite(pg, err, data, kernelCopy, last)
    ensures out.Go? == (last || kernelCopy)
  {
    var noted := if err == KERN_SUCCESS then pg.(entry := pg.entry.(invalid := false))
                 else pg.(entry := pg.entry.(invalid := true, error := err));
    if terminating && last && !kernelCopy && pg.entry.wait != []
    then Go(noted.(entry := noted.entry.(pagingOut := false)), Done)
    else EndWrite(pg, err, data, kernelCopy, last)
  }

  /** Once the pager is shutting down, a return and the end of a write serve nobody and send nothing, and a write
      is still accounted for. */
  lemma ClosingServesNobody(pg: Page, c: Client, data: Content, dirty: bool, kernelCopy: bool, err: int, last: bool)
    ensures var out := Returned(pg, c, data, dirty, kernelCopy, true);
            && out.Go? && out.op == Done && out.page.box == pg.box && out.page.entry.wait == pg.entry.wait
            && out.page.entry.access == (if kernelCopy || c == MACH_PORT_DEAD then pg.entry.access
                                         else pg.entry.access - {c})
            && out.page.entry.pagingOut == (pg.entry.pagingOut || dirty)
    ensures var out := Written(pg, err, data, kernelCopy, last, true);
            out.Go? ==>
              && out.op == Done && out.page.box == pg.box && out.page.entry.wait == pg.entry.wait
              && out.page.entry.access == pg.entry.access && out.page.entry.pagingOut == (pg.entry.pagingOut && !last)
              && out.page.entry.invalid == (err != KERN_SUCCESS && (!last || kernelCopy || pg.entry.wait != []))
  {
  }

  function WrittenAt(pg: Page, err: int, data: Content, queue: seq<WriteBack.Block>, p: nat, terminating: bool): Outcome
    requires queue != []
  {
    Written(pg, err, data, queue[0].kernelCopy, LastOnQueue(queue, p), terminating)
  }

  function Postponed(pg: Page, w: Waiter, code: int): Page {
    var flushed := FlushAll(pg, {w.client});
    Log(flushed.(nextError := flushed.nextError + [LateError(w.client, code)]), Deferred(w))
  }

  function Pop(pg: Page): Page
    requires pg.entry.wait != []
  {
    pg.(entry := pg.entry.(wait := pg.entry.wait[1..]))
  }

  function WithWait(pg: Page, ws: seq<Waiter>): Page {
    pg.(entry := pg.entry.(wait := ws))
  }

  /** The batch of `n` ends before a writer, and only its first client may ask to write. */
  ghost predicate Readers(ws: seq<Waiter>, n: nat) {
    n <= |ws| && (n < |ws| ==> ws[n].write) && forall j :: 1 <= j < n ==> !ws[j].write
  }

  lemma ReadersFollow(ws: seq<Waiter>)
    requires ws != []
    ensures Readers(ws, 1 + ReaderRun(ws[1..]))
  {
    assert forall j :: 1 <= j < |ws| ==> ws[j] == ws[1..][j - 1];
  }

  /** One round of the do-while loop. */
  lemma SupplyStep(cur: Page, next: Page, ws: seq<Waiter>, i: nat, n: nat, data: Content, dealloc: bool, last: bool)
    requires i < n <= |ws| && cur.entry.wait == ws[i..] && last == (dealloc && n == i + 1)
    requires next == Pop(SupplyOne(cur, ws[i], data, last, true))
    ensures SupplyAll(WithWait(next, ws), ws[i + 1..n], data, dealloc, true) ==
            SupplyAll(WithWait(cur, ws), ws[i..n], data, dealloc, true)
  {
    assert ws[i..n][0] == ws[i] && ws[i..n][1..] == ws[i + 1..n];
    assert WithWait(next, ws) == SupplyOne(WithWait(cur, ws), ws[i], data, last, true);
  }

  lemma RoundsDone(before: Page, after: Page, ws: seq<Waiter>, n: nat, data: Content, dealloc: bool)
    requires n <= |ws| && before.entry.wait == ws && after.entry.wait == ws[n..]
    requires SupplyAll(WithWait(after, ws), ws[n..n], data, dealloc, true) ==
             SupplyAll(WithWait(before, ws), ws[0..n], data, dealloc, true)
    ensures after == WithWait(SupplyAll(before, ws[..n], data, dealloc, true), ws[n..])
  {
    assert ws[n..n] == [] && ws[0..n] == ws[..n];
    assert WithWait(before, ws) == before;
  }

  lemma OneSupply(pg: Page, ws: seq<Waiter>, data: Content, dealloc: bool, readOnly: bool)
    requires ws != []
    ensures SupplyAll(pg, ws[..1], data, dealloc, readOnly) == SupplyOne(pg, ws[0], data, dealloc, readOnly)
  {
    assert ws[..1] == [ws[0]] && [ws[0]][1..] == [];
  }

  lemma FlushNone(pg: Page)
    ensures FlushAll(pg, {}) == pg
  {
    var none := FlushAll(pg, {});
    assert none.locks == pg.locks;
    forall c | c in pg.box ensures none.box[c] == pg.box[c] {
      assert Box(pg, c) + [] == Box(pg, c);
    }
    assert none.box == pg.box;
  }

  lemma FlushSingle(pg: Page, c: Client)
    ensures FlushAll(pg, {c}) == Post(pg.(locks := pg.locks[c := LockRecord(Count(pg, c) + 1, true)]), c, Flush)
  {
    var one := FlushAll(pg, {c});
    var q := Post(pg.(locks := pg.locks[c := LockRecord(Count(pg, c) + 1, true)]), c, Flush);
    assert one.locks == q.locks;
    forall x | x in one.box ensures one.box[x] == q.box[x] {
      assert Box(pg, x) + [] == Box(pg, x);
    }
    assert one.box == q.box;
  }

  /** Flushing does not look at the entry. */
  lemma FlushEntry(pg: Page, e: Entry, cs: set<Client>)
    ensures FlushAll(pg, cs).(entry := e) == FlushAll(pg.(entry := e), cs)
  {
    var q := pg.(entry := e);
    var a, b := FlushAll(pg, cs), FlushAll(q, cs);
    assert forall c :: Count(pg, c) == Count(q, c) && Box(pg, c) == Box(q, c);
    assert a.locks == b.locks;
    assert a.box == b.box;
  }

  lemma OneMoreBox(pg: Page, cs: set<Client>, c: Client)
    requires c !in cs
    ensures FlushAll(FlushAll(pg, cs), {c}).box == FlushAll(pg, cs + {c}).box
  {
    var some := FlushAll(pg, cs);
    var one, all := FlushAll(some, {c}).box, FlushAll(pg, cs + {c}).box;
    assert one.Keys == all.Keys;
    forall x | x in one ensures one[x] == all[x] {
      FlushAt(pg, cs, x);
      FlushAt(some, {c}, x);
      FlushAt(pg, cs + {c}, x);
    }
  }

  lemma FlushOneMore(pg: Page, cs: set<Client>, c: Client)
    requires c !in cs
    ensures FlushAll(FlushAll(pg, cs), {c}) == FlushAll(pg, cs + {c})
  {
    OneMoreBox(pg, cs, c);
    assert FlushAll(FlushAll(pg, cs), {c}).locks == FlushAll(pg, cs + {c}).locks;
  }
}
