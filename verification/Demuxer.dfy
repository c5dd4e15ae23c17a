/**
The worker pool of libpager/demuxer.c, for any number of workers and any interleaving of their
critical sections: requests are queued by one receiving thread, and a worker that takes a request for
an object another worker is busy with delegates it to that worker's private queue.
*/
module Demuxer {
  /** `port` is the object that the request is for; `id` tells requests apart. */
  datatype Request = Request(id: nat, port: nat)

  /** Where a worker is: about to take the lock, executing a server routine, or waiting on the `wakeup`
      condition, perhaps already signalled. */
  datatype Mode = Ready | Busy(request: Request) | Asleep(signalled: bool)

  datatype Worker = Worker(tag: nat, queue: seq<Request>, mode: Mode)

  /** The caller of pager_inhibit_workers: none, waiting on `inhibit_wakeup`, or returned. */
  datatype Inhibitor = Off | Waiting(signalled: bool) | On

  /** `incoming` is the new queue that inhibiting sets up; without one, requests go to `out`.  The last
      three fields record what has happened. */
  datatype State = State(
    workers: seq<Worker>,
    out: seq<Request>,
    incoming: seq<Request>,
    split: bool,
    asleep: int,
    inhibitor: Inhibitor,
    arrived: seq<Request>,
    started: seq<Request>,
    finished: seq<Request>
  )

  function Start(n: nat): State {
    State(seq(n, _ => Worker(0, [], Ready)), [], [], false, 0, Off, [], [], [])
  }

  datatype Event =
    | Arrive(request: Request, who: nat)   // `who` is the sleeper that a signal reaches
    | Finish(worker: nat)
    | Proceed(worker: nat)
    | Wake(worker: nat)                    // after a signal, or spuriously
    | Inhibit
    | InhibitorWakes
    | Resume

  // ----- steps

  function SetWorker(s: State, i: nat, w: Worker): State
    requires i < |s.workers|
  {
    s.(workers := s.workers[i := w])
  }

  /** The first worker from `i` on whose tag is `port`, or the number of workers. */
  function Owner(ws: seq<Worker>, port: nat, i: nat): (j: nat)
    requires i <= |ws|
    ensures i <= j <= |ws| && (j < |ws| ==> ws[j].tag == port)
    ensures forall k :: i <= k < j ==> ws[k].tag != port
    decreases |ws| - i
  {
    if i == |ws| || ws[i].tag == port then i else Owner(ws, port, i + 1)
  }

  /** Nothing is left: the worker goes to sleep, and the last one to do so tells the inhibitor. */
  function Sleep(s: State, i: nat): State
    requires i < |s.workers|
  {
    var down := SetWorker(s.(asleep := s.asleep + 1), i, s.workers[i].(mode := Asleep(false)));
    if down.asleep == |s.workers| && s.inhibitor.Waiting? then down.(inhibitor := Waiting(true)) else down
  }

  function Begin(s: State, i: nat, r: Request): State
    requires i < |s.workers|
  {
    SetWorker(s.(started := s.started + [r]), i, s.workers[i].(tag := r.port, mode := Busy(r)))
  }

  function Delegate(s: State, j: nat, r: Request): State
    requires j < |s.workers|
  {
    SetWorker(s, j, s.workers[j].(queue := s.workers[j].queue + [r]))
  }

  /** The worker's loop at `get_request_locked`. */
  function Fetch(s: State, i: nat): State
    requires i < |s.workers|
    decreases |s.out|
  {
    if s.out == [] then Sleep(s, i)
    else
      var r, rest := s.out[0], s.(out := s.out[1..]);
      var j := Owner(s.workers, r.port, 0);
      if j < |s.workers| then Fetch(Delegate(rest, j, r), i) else Begin(rest, i, r)
  }

  predicate Sleeping(w: Worker) {
    w.mode == Asleep(false)
  }

  predicate Quiet(s: State) {
    s.asleep >= |s.workers| && s.out == []
  }

  /** The signal of pager_demuxer. */
  function Signal(s: State, who: nat): State {
    if s.asleep > 0 && !s.split && who < |s.workers| && Sleeping(s.workers[who])
    then SetWorker(s, who, s.workers[who].(mode := Asleep(true)))
    else s
  }

  /** The `assert`s of pager_inhibit_workers and pager_resume_workers are not part of the condition. */
  predicate Enabled(s: State, e: Event) {
    match e
    case Arrive(r, who) =>
      // a message was received on a port that has a name; a signal reaches a sleeper if there is one
      r.port != 0 && ((exists i :: 0 <= i < |s.workers| && Sleeping(s.workers[i])) ==>
                        who < |s.workers| && Sleeping(s.workers[who]))
    case Finish(i) => i < |s.workers| && s.workers[i].mode.Busy?
    case Proceed(i) => i < |s.workers| && s.workers[i].mode.Ready?
    case Wake(i) => i < |s.workers| && s.workers[i].mode.Asleep?
    case Inhibit => s.inhibitor.Off?
    case InhibitorWakes => s.inhibitor.Waiting?
    case Resume => s.inhibitor.On?
  }

  function Step(s: State, e: Event): State
    requires Enabled(s, e)
  {
    match e
    case Arrive(r, who) =>
      var queued := if s.split then s.(incoming := s.incoming + [r]) else s.(out := s.out + [r]);
      Signal(queued.(arrived := s.arrived + [r]), who)
    case Finish(i) =>
      SetWorker(s.(finished := s.finished + [s.workers[i].mode.request]), i, s.workers[i].(mode := Ready))
    case Proceed(i) =>
      var w := s.workers[i];
      if w.queue != [] then
        var r := w.queue[0];
        SetWorker(s.(started := s.started + [r]), i, Worker(w.tag, w.queue[1..], Busy(r)))
      else Fetch(SetWorker(s, i, w.(tag := 0)), i)
    case Wake(i) =>
      Fetch(SetWorker(s.(asleep := s.asleep - 1), i, s.workers[i].(mode := Ready)), i)
    case Inhibit => s.(split := true, incoming := [], inhibitor := if Quiet(s) then On else Waiting(false))
    case InhibitorWakes => s.(inhibitor := if Quiet(s) then On else Waiting(false))
    case Resume =>
      s.(out := s.incoming, incoming := [], split := false, inhibitor := Off,
         workers := seq(|s.workers|, i requires 0 <= i < |s.workers| =>
                          if s.workers[i].mode.Asleep? then s.workers[i].(mode := Asleep(true)) else s.workers[i]))
  }

  ghost predicate Valid(s: State, evs: seq<Event>)
    decreases |evs|
  {
    evs == [] || (Enabled(s, evs[0]) && Valid(Step(s, evs[0]), evs[1..]))
  }

  ghost function Exec(s: State, evs: seq<Event>): State
    requires Valid(s, evs)
    decreases |evs|
  {
    if evs == [] then s else Exec(Step(s, evs[0]), evs[1..])
  }
}
