/**
The worker pool as libpager/demuxer.c keeps it: an object whose critical sections change queues, tags
and the count of sleepers in place.  Each method is what one thread does while it holds the lock.
*/
module Workers {
  import opened Demuxer

  class Pool {
    var workers: seq<Worker>
    var queueIn: seq<Request>     // the new queue, while the two differ
    var queueOut: seq<Request>
    var split: bool               // queue_in and queue_out are different queues
    var asleep: int
    var inhibitor: Inhibitor
    /** What has happened so far. */
    var arrived: seq<Request>
    var started: seq<Request>
    var finished: seq<Request>

    constructor (n: nat)
      ensures View() == Start(n)
    {
      workers := seq(n, _ => Worker(0, [], Ready));
      queueIn, queueOut, split, asleep, inhibitor := [], [], false, 0, Off;
      arrived, started, finished := [], [], [];
    }

    function View(): State
      reads this
    {
      State(workers, queueOut, queueIn, split, asleep, inhibitor, arrived, started, finished)
    }

    /** pager_demuxer; the signal reaches `who`. */
    method Demux(r: Request, who: nat)
      requires Enabled(View(), Arrive(r, who))
      modifies this
      ensures View() == Step(old(View()), Arrive(r, who))
    {
      if split {
        queueIn := queueIn + [r];
      } else {
        queueOut := queueOut + [r];
      }
      arrived := arrived + [r];
      if asleep > 0 && !split && who < |workers| && workers[who].mode == Asleep(false) {
        workers := workers[who := workers[who].(mode := Asleep(true))];
      }
    }

    /** The loop of worker_func that takes requests from the common queue until it finds one for an
        object nobody is working on, or goes to sleep. */
    method GetRequest(self: nat)
      requires self < |workers|
      modifies this
      ensures View() == Fetch(old(View()), self)
    {
      ghost var goal := Fetch(View(), self);
      while queueOut != []
        invariant self < |workers|
        invariant Fetch(View(), self) == goal
        decreases |queueOut|
      {
        var r := queueOut[0];
        queueOut := queueOut[1..];
        var i := FindOwner(r.port);
        if i == |workers| {
          started := started + [r];
          workers := workers[self := workers[self].(tag := r.port, mode := Busy(r))];
          return;
        }
        workers := workers[i := workers[i].(queue := workers[i].queue + [r])];
      }
      asleep := asleep + 1;
      if asleep == |workers| && inhibitor.Waiting? {
        inhibitor := Waiting(true);
      }
      workers := workers[self := workers[self].(mode := Asleep(false))];
    }

    method FindOwner(port: nat) returns (i: nat)
      ensures i == Owner(workers, port, 0)
    {
      i := 0;
      while i < |workers| && workers[i].tag != port
        invariant i <= |workers|
        invariant Owner(workers, port, i) == Owner(workers, port, 0)
      {
        i := i + 1;
      }
    }

    /** A worker takes the lock after its previous request, or for the first time. */
    method NextRequest(self: nat)
      requires Enabled(View(), Proceed(self))
      modifies this
      ensures View() == Step(old(View()), Proceed(self))
    {
      if workers[self].queue != [] {
        var r := workers[self].queue[0];
        started := started + [r];
        workers := workers[self := Worker(workers[self].tag, workers[self].queue[1..], Busy(r))];
      } else {
        workers := workers[self := workers[self].(tag := 0)];
        GetRequest(self);
      }
    }

    /** A worker's wait on `wakeup` ends. */
    method WakeUp(self: nat)
      requires Enabled(View(), Wake(self))
      modifies this
      ensures View() == Step(old(View()), Wake(self))
    {
      asleep := asleep - 1;
      workers := workers[self := workers[self].(mode := Ready)];
      GetRequest(self);
    }

    /** pager_inhibit_workers up to its wait or its return; `ok` is that its assertion holds. */
    method InhibitWorkers() returns (ok: bool)
      requires Enabled(View(), Inhibit)
      modifies this
      ensures ok == !old(split)
      ensures ok ==> View() == Step(old(View()), Inhibit)
    {
      if split {
        return false;
      }
      split, queueIn := true, [];
      inhibitor := if asleep < |workers| || queueOut != [] then Waiting(false) else On;
      ok := true;
    }

    /** pager_resume_workers; `ok` is that its assertions hold. */
    method ResumeWorkers() returns (ok: bool)
      requires Enabled(View(), Resume)
      modifies this
      ensures ok == (old(split) && old(asleep) == |old(workers)| && old(queueOut) == [])
      ensures ok ==> View() == Step(old(View()), Resume)
    {
      if !split || asleep != |workers| || queueOut != [] {
        return false;
      }
      queueOut, queueIn, split, inhibitor := queueIn, [], false, Off;
      ghost var was := workers;
      var i := 0;
      while i < |workers|
        invariant i <= |workers| == |was|
        invariant forall j :: 0 <= j < i ==>
          workers[j] == if was[j].mode.Asleep? then was[j].(mode := Asleep(true)) else was[j]
        invariant forall j :: i <= j < |was| ==> workers[j] == was[j]
        invariant View() == old(View()).(out := old(queueIn), incoming := [], split := false, inhibitor := Off,
          workers := workers)
      {
        if workers[i].mode.Asleep? {
          workers := workers[i := workers[i].(mode := Asleep(true))];
        }
        i := i + 1;
      }
      ok := true;
      assert workers == Step(old(View()), Resume).workers;
    }
  }
}
