/**
What every interleaving of the worker pool keeps: requests for one object start in the order they
arrived, one at a time; no request is left with everybody asleep; and inhibiting the workers stops them.
*/
module DemuxerProof {
  import opened Demuxer

  // ----- requests for one object

  function For(rs: seq<Request>, port: nat): seq<Request>
    decreases |rs|
  {
    if rs == [] then [] else (if rs[0].port == port then [rs[0]] else []) + For(rs[1..], port)
  }

  lemma {:induction false} ForConcat(a: seq<Request>, b: seq<Request>, port: nat)
    ensures For(a + b, port) == For(a, port) + For(b, port)
    decreases |a|
  {
    if a == [] {
      assert a + b == b;
    } else {
      var head := if a[0].port == port then [a[0]] else [];
      assert (a + b)[1..] == a[1..] + b;
      ForConcat(a[1..], b, port);
      assert head + (For(a[1..], port) + For(b, port)) == (head + For(a[1..], port)) + For(b, port);
    }
  }

  lemma ForMore(a: seq<Request>, r: Request, port: nat)
    ensures For(a + [r], port) == For(a, port) + if r.port == port then [r] else []
  {
    ForConcat(a, [r], port);
    assert [r][1..] == [];
  }

  // ----- counting sleepers

  function NumAsleep(ws: seq<Worker>): (n: nat)
    ensures n <= |ws|
    decreases |ws|
  {
    if ws == [] then 0 else (if ws[0].mode.Asleep? then 1 else 0) + NumAsleep(ws[1..])
  }

  lemma {:induction false} AsleepUpdate(ws: seq<Worker>, i: nat, w: Worker)
    requires i < |ws|
    ensures NumAsleep(ws[i := w]) ==
            NumAsleep(ws) - (if ws[i].mode.Asleep? then 1 else 0) + (if w.mode.Asleep? then 1 else 0)
    decreases |ws|
  {
    if i > 0 {
      assert ws[i := w][1..] == ws[1..][i - 1 := w];
      AsleepUpdate(ws[1..], i - 1, w);
    }
  }

  lemma {:induction false} AllAsleep(ws: seq<Worker>)
    ensures NumAsleep(ws) == |ws| <==> forall i :: 0 <= i < |ws| ==> ws[i].mode.Asleep?
    ensures NumAsleep(ws) == 0 <==> forall i :: 0 <= i < |ws| ==> !ws[i].mode.Asleep?
    decreases |ws|
  {
    if ws != [] {
      AllAsleep(ws[1..]);
      assert forall i :: 1 <= i < |ws| ==> ws[i] == ws[1..][i - 1];
      assert forall i :: 0 <= i < |ws| - 1 ==> ws[1..][i] == ws[i + 1];
    }
  }

  // ----- the invariant

  ghost predicate WorkerOk(w: Worker) {
    && (w.tag == 0 ==> w.queue == [])
    && (forall k :: 0 <= k < |w.queue| ==> w.queue[k].port == w.tag)
    && (w.mode.Busy? ==> w.mode.request.port == w.tag)
    && (w.mode.Busy? ==> w.tag != 0)
    && (w.mode.Asleep? ==> w.tag == 0)
  }

  ghost predicate Named(rs: seq<Request>) {
    forall k :: 0 <= k < |rs| ==> rs[k].port != 0
  }

  /** No two workers have the same object, and each works only for the object it has. */
  ghost predicate PoolOk(s: State) {
    && (forall i :: 0 <= i < |s.workers| ==> WorkerOk(s.workers[i]))
    && (forall i, j :: 0 <= i < j < |s.workers| && s.workers[i].tag == s.workers[j].tag ==> s.workers[i].tag == 0)
    && Named(s.out) && Named(s.incoming)
    && s.asleep == NumAsleep(s.workers)
    && (!s.split ==> s.incoming == [])
  }

  /** What `port`'s worker, if it has one, holds for it. */
  function Held(ws: seq<Worker>, port: nat): seq<Request> {
    var j := Owner(ws, port, 0);
    if j < |ws| then ws[j].queue else []
  }

  function InProgress(ws: seq<Worker>, port: nat): seq<Request> {
    var j := Owner(ws, port, 0);
    if j < |ws| && ws[j].mode.Busy? then [ws[j].mode.request] else []
  }

  /** The requests for `port` that arrived are, in order: those finished, the one in progress, those
      its worker holds, and those still queued. */
  ghost predicate InLine(s: State, port: nat) {
    && For(s.started, port) == For(s.finished, port) + InProgress(s.workers, port)
    && For(s.arrived, port) == For(s.started, port) + Held(s.workers, port) + For(s.out, port) + For(s.incoming, port)
  }

  ghost predicate AllInLine(s: State) {
    forall port: nat :: port != 0 ==> InLine(s, port)
  }

  /** Somebody will look at the queue. */
  ghost predicate Attended(s: State) {
    s.out != [] ==> exists i :: 0 <= i < |s.workers| && !Sleeping(s.workers[i])
  }

  ghost predicate InhibitOk(s: State) {
    match s.inhibitor
    case Off => !s.split
    case Waiting(signalled) => s.split && (!signalled ==> !Quiet(s))
    case On => s.split && Quiet(s)
  }

  ghost predicate Inv(s: State) {
    && s.workers != [] && PoolOk(s) && AllInLine(s) && Attended(s) && InhibitOk(s)
  }

  // ----- changing one worker

  /** Worker `i` becomes `w`, and no other worker has the object of `w`. */
  ghost predicate Fits(ws: seq<Worker>, i: nat, w: Worker)
    requires i < |ws|
  {
    WorkerOk(w) && (w.tag != 0 ==> forall k :: 0 <= k < |ws| && k != i ==> ws[k].tag != w.tag)
  }

  lemma SetOk(s: State, i: nat, w: Worker)
    requires PoolOk(s) && i < |s.workers| && Fits(s.workers, i, w)
    requires s.workers[i].mode.Asleep? == w.mode.Asleep?
    ensures PoolOk(SetWorker(s, i, w))
  {
    AsleepUpdate(s.workers, i, w);
  }

  /** What is held and in progress for `port` changes only with the worker that has it. */
  lemma SetView(ws: seq<Worker>, i: nat, w: Worker, port: nat)
    requires i < |ws| && port != 0 && Fits(ws, i, w)
    requires forall i, j :: 0 <= i < j < |ws| && ws[i].tag == ws[j].tag ==> ws[i].tag == 0
    ensures var ws' := ws[i := w];
            if w.tag == port then Held(ws', port) == w.queue &&
              InProgress(ws', port) == (if w.mode.Busy? then [w.mode.request] else [])
            else if ws[i].tag == port then Held(ws', port) == [] && InProgress(ws', port) == []
            else Held(ws', port) == Held(ws, port) && InProgress(ws', port) == InProgress(ws, port)
    ensures ws[i].tag == port ==>
            && Held(ws, port) == ws[i].queue
            && InProgress(ws, port) == (if ws[i].mode.Busy? then [ws[i].mode.request] else [])
  {
    var ws' := ws[i := w];
    var j, k := Owner(ws, port, 0), Owner(ws', port, 0);
    assert forall x :: 0 <= x < |ws| && x != i ==> ws'[x] == ws[x];
    assert ws'[i] == w;
    if ws[i].tag == port {
      assert j == i;
    }
    if w.tag == port {
      assert k == i;
    } else if ws[i].tag == port {
      assert k == |ws|;
    } else {
      assert j == k;
    }
  }

  // ----- the worker's loop

  lemma ForHead(rs: seq<Request>, port: nat)
    requires rs != []
    ensures For(rs, port) == Only(rs[0], port) + For(rs[1..], port)
  {
  }

  function Only(r: Request, port: nat): seq<Request> {
    if r.port == port then [r] else []
  }

  lemma Regroup(a: seq<Request>, h: seq<Request>, x: seq<Request>, o: seq<Request>, n: seq<Request>)
    ensures a + h + (x + o) + n == a + (h + x) + o + n
    ensures h == [] || x == [] ==> a + h + (x + o) + n == (a + x) + h + o + n
  {
  }

  /** The first queued request goes to the end of what is held. */
  lemma PassOn(s: State, t: State, r: Request, port: nat)
    requires InLine(s, port) && For(s.out, port) == Only(r, port) + For(t.out, port)
    requires t == s.(out := t.out, workers := t.workers)
    requires Held(t.workers, port) == Held(s.workers, port) + Only(r, port)
    requires InProgress(t.workers, port) == InProgress(s.workers, port)
    ensures InLine(t, port)
  {
    Regroup(For(s.started, port), Held(s.workers, port), Only(r, port), For(t.out, port), For(s.incoming, port));
  }

  /** The first queued request starts; nothing was held or in progress for its object. */
  lemma TakeNext(s: State, t: State, r: Request, port: nat)
    requires InLine(s, port) && For(s.out, port) == Only(r, port) + For(t.out, port)
    requires t == s.(out := t.out, workers := t.workers, started := t.started)
    requires For(t.started, port) == For(s.started, port) + Only(r, port)
    requires Held(t.workers, port) == Held(s.workers, port)
    requires r.port == port ==> Held(s.workers, port) == [] && InProgress(s.workers, port) == []
    requires InProgress(t.workers, port) == InProgress(s.workers, port) + Only(r, port)
    ensures InLine(t, port)
  {
    Regroup(For(s.started, port), Held(s.workers, port), Only(r, port), For(t.out, port), For(s.incoming, port));
  }

  /** Worker `i` has the lock and no object. */
  ghost predicate Free(s: State, i: nat) {
    i < |s.workers| && s.workers[i].mode.Ready? && s.workers[i].tag == 0
  }

  lemma SleepKeeps(s: State, i: nat)
    requires PoolOk(s) && AllInLine(s) && Free(s, i) && s.out == [] && (s.inhibitor.Off? <==> !s.split)
    requires s.inhibitor.On? ==> s.asleep == |s.workers| - 1
    ensures Inv(Sleep(s, i))
  {
    var w := s.workers[i].(mode := Asleep(false));
    var r := Sleep(s, i);
    AsleepUpdate(s.workers, i, w);
    forall port: nat | port != 0 ensures InLine(r, port) {
      assert InLine(s, port);
      SetView(s.workers, i, w, port);
    }
  }

  lemma BeginKeeps(s: State, i: nat)
    requires PoolOk(s) && AllInLine(s) && Free(s, i) && (s.inhibitor.Off? <==> !s.split) && !s.inhibitor.On?
    requires s.out != [] && Owner(s.workers, s.out[0].port, 0) == |s.workers|
    ensures Inv(Begin(s.(out := s.out[1..]), i, s.out[0]))
  {
    var r := s.out[0];
    var w := s.workers[i].(tag := r.port, mode := Busy(r));
    var t := Begin(s.(out := s.out[1..]), i, r);
    AsleepUpdate(s.workers, i, w);
    AllAsleep(t.workers);
    forall port: nat | port != 0 ensures InLine(t, port) {
      assert InLine(s, port);
      SetView(s.workers, i, w, port);
      ForMore(s.started, r, port);
      ForHead(s.out, port);
      TakeNext(s, t, r, port);
    }
    assert !Sleeping(t.workers[i]);
  }

  lemma DelegateKeeps(s: State, j: nat)
    requires PoolOk(s) && AllInLine(s) && s.out != [] && j == Owner(s.workers, s.out[0].port, 0) < |s.workers|
    ensures var t := Delegate(s.(out := s.out[1..]), j, s.out[0]); PoolOk(t) && AllInLine(t)
  {
    var r := s.out[0];
    var w := s.workers[j].(queue := s.workers[j].queue + [r]);
    var t := Delegate(s.(out := s.out[1..]), j, r);
    AsleepUpdate(s.workers, j, w);
    forall port: nat | port != 0 ensures InLine(t, port) {
      assert InLine(s, port);
      SetView(s.workers, j, w, port);
      ForHead(s.out, port);
      PassOn(s, t, r, port);
    }
  }

  lemma FetchKeeps(s: State, i: nat)
    requires PoolOk(s) && AllInLine(s) && Free(s, i) && (s.inhibitor.Off? <==> !s.split)
    requires s.inhibitor.On? ==> s.out == [] && s.asleep == |s.workers| - 1
    ensures Inv(Fetch(s, i))
    decreases |s.out|
  {
    if s.out == [] {
      SleepKeeps(s, i);
    } else {
      var j := Owner(s.workers, s.out[0].port, 0);
      if j < |s.workers| {
        DelegateKeeps(s, j);
        FetchKeeps(Delegate(s.(out := s.out[1..]), j, s.out[0]), i);
      } else {
        BeginKeeps(s, i);
      }
    }
  }

  // ----- every step

  /** A signal changes nothing but which sleeper is signalled. */
  lemma SignalKeeps(s: State, who: nat)
    requires PoolOk(s)
    ensures var t := Signal(s, who);
            && PoolOk(t) && t == s.(workers := t.workers) && |t.workers| == |s.workers|
            && forall port: nat :: port != 0 ==>
                 Held(t.workers, port) == Held(s.workers, port) &&
                   InProgress(t.workers, port) == InProgress(s.workers, port)
  {
    if who < |s.workers| && Sleeping(s.workers[who]) {
      var w := s.workers[who].(mode := Asleep(true));
      AsleepUpdate(s.workers, who, w);
      forall port: nat | port != 0
        ensures Held(s.workers[who := w], port) == Held(s.workers, port) &&
          InProgress(s.workers[who := w], port) == InProgress(s.workers, port)
      {
        SetView(s.workers, who, w, port);
      }
    }
  }

  lemma ArriveLine(s: State, q: State, r: Request, port: nat)
    requires InLine(s, port) && PoolOk(s)
    requires q == (if s.split then s.(incoming := s.incoming + [r])
      else s.(out := s.out + [r])).(arrived := s.arrived + [r])
    ensures InLine(q, port)
  {
    ForMore(s.arrived, r, port);
    var a, x := For(s.started, port) + Held(s.workers, port), Only(r, port);
    if s.split {
      ForMore(s.incoming, r, port);
      Associate(a + For(s.out, port), For(s.incoming, port), x);
    } else {
      ForMore(s.out, r, port);
      Associate(a, For(s.out, port), x);
      assert For(s.incoming, port) == [];
      assert a + For(s.out, port) + [] == a + For(s.out, port);
      assert a + (For(s.out, port) + x) + [] == a + (For(s.out, port) + x);
    }
  }

  lemma Associate(a: seq<Request>, b: seq<Request>, c: seq<Request>)
    ensures a + b + c == a + (b + c)
  {
  }

  lemma ArriveKeeps(s: State, r: Request, who: nat)
    requires Inv(s) && Enabled(s, Arrive(r, who))
    ensures Inv(Step(s, Arrive(r, who)))
  {
    var q := (if s.split then s.(incoming := s.incoming + [r])
      else s.(out := s.out + [r])).(arrived := s.arrived + [r]);
    var t := Signal(q, who);
    SignalKeeps(q, who);
    forall port: nat | port != 0 ensures InLine(t, port) {
      assert InLine(s, port);
      ArriveLine(s, q, r, port);
    }
    AllAsleep(s.workers);
    if s.asleep == 0 || (s.split && s.out != []) || !(who < |s.workers| && Sleeping(s.workers[who])) {
      assert t.out != [] ==> exists i :: 0 <= i < |t.workers| && !Sleeping(t.workers[i]) by {
        assert t.workers == s.workers;
        assert 0 < |s.workers|;
        assert s.asleep == 0 ==> !Sleeping(s.workers[0]);
        assert !(who < |s.workers| && Sleeping(s.workers[who])) ==> !Sleeping(s.workers[0]);
      }
    } else if !s.split {
      assert !Sleeping(t.workers[who]);
    }
  }

  lemma FinishKeeps(s: State, i: nat)
    requires Inv(s) && Enabled(s, Finish(i))
    ensures Inv(Step(s, Finish(i)))
  {
    var w := s.workers[i].(mode := Ready);
    var t := Step(s, Finish(i));
    SetOk(s, i, w);
    AllAsleep(s.workers);
    forall port: nat | port != 0 ensures InLine(t, port) {
      assert InLine(s, port);
      SetView(s.workers, i, w, port);
      ForMore(s.finished, s.workers[i].mode.request, port);
    }
    assert !Sleeping(t.workers[i]);
  }

  /** A worker goes on with the next request it holds. */
  lemma NextHeldKeeps(s: State, i: nat)
    requires Inv(s) && Enabled(s, Proceed(i)) && s.workers[i].queue != []
    ensures Inv(Step(s, Proceed(i)))
  {
    var r := s.workers[i].queue[0];
    var w := Worker(s.workers[i].tag, s.workers[i].queue[1..], Busy(r));
    var t := Step(s, Proceed(i));
    SetOk(s, i, w);
    AllAsleep(s.workers);
    forall port: nat | port != 0 ensures InLine(t, port) {
      assert InLine(s, port);
      SetView(s.workers, i, w, port);
      ForMore(s.started, r, port);
      NextHeldLine(s, t, r, port);
    }
    assert !Sleeping(t.workers[i]);
  }

  lemma NextHeldLine(s: State, t: State, r: Request, port: nat)
    requires InLine(s, port) && t == s.(workers := t.workers, started := t.started)
    requires For(t.started, port) == For(s.started, port) + Only(r, port)
    requires Held(s.workers, port) == Only(r, port) + Held(t.workers, port)
    requires InProgress(t.workers, port) == InProgress(s.workers, port) + Only(r, port)
    ensures InLine(t, port)
  {
    Associate(For(s.started, port), Only(r, port), Held(t.workers, port));
    Associate(For(s.finished, port), InProgress(s.workers, port), Only(r, port));
  }

  lemma ProceedKeeps(s: State, i: nat)
    requires Inv(s) && Enabled(s, Proceed(i))
    ensures Inv(Step(s, Proceed(i)))
  {
    if s.workers[i].queue != [] {
      NextHeldKeeps(s, i);
    } else {
      var w := s.workers[i].(tag := 0);
      var q := SetWorker(s, i, w);
      SetOk(s, i, w);
      AllAsleep(s.workers);
      forall port: nat | port != 0 ensures InLine(q, port) {
        assert InLine(s, port);
        SetView(s.workers, i, w, port);
      }
      FetchKeeps(q, i);
    }
  }

  lemma WakeKeeps(s: State, i: nat)
    requires Inv(s) && Enabled(s, Wake(i))
    ensures Inv(Step(s, Wake(i)))
  {
    var w := s.workers[i].(mode := Ready);
    var q := SetWorker(s.(asleep := s.asleep - 1), i, w);
    AsleepUpdate(s.workers, i, w);
    forall port: nat | port != 0 ensures InLine(q, port) {
      assert InLine(s, port);
      SetView(s.workers, i, w, port);
    }
    FetchKeeps(q, i);
  }

  /** Starting to inhibit, and looking again, move no request. */
  lemma InhibitKeeps(s: State, e: Event)
    requires Inv(s) && Enabled(s, e) && (e.Inhibit? || e.InhibitorWakes?)
    ensures Inv(Step(s, e))
  {
    var t := Step(s, e);
    forall port: nat | port != 0 ensures InLine(t, port) {
      assert InLine(s, port);
    }
  }

  lemma {:induction false} SameModes(ws: seq<Worker>, vs: seq<Worker>)
    requires |ws| == |vs| && forall i :: 0 <= i < |ws| ==> vs[i].mode.Asleep? == ws[i].mode.Asleep?
    ensures NumAsleep(ws) == NumAsleep(vs)
    decreases |ws|
  {
    if ws != [] {
      SameModes(ws[1..], vs[1..]);
    }
  }

  lemma SameViews(ws: seq<Worker>, vs: seq<Worker>, port: nat)
    requires |ws| == |vs|
    requires forall i :: 0 <= i < |ws| ==>
        vs[i] == ws[i] || (ws[i].mode.Asleep? && vs[i] == ws[i].(mode := Asleep(true)))
    ensures Held(ws, port) == Held(vs, port) && InProgress(ws, port) == InProgress(vs, port)
  {
    assert Owner(ws, port, 0) == Owner(vs, port, 0);
  }

  lemma ResumeKeeps(s: State)
    requires Inv(s) && Enabled(s, Resume)
    ensures Inv(Step(s, Resume))
  {
    var t := Step(s, Resume);
    AllAsleep(s.workers);
    SameModes(s.workers, t.workers);
    forall port: nat | port != 0 ensures InLine(t, port) {
      assert InLine(s, port);
      SameViews(s.workers, t.workers, port);
    }
    assert !Sleeping(t.workers[0]);
  }

  lemma StepKeeps(s: State, e: Event)
    requires Inv(s) && Enabled(s, e)
    ensures Inv(Step(s, e))
  {
    match e
    case Arrive(r, who) => ArriveKeeps(s, r, who);
    case Finish(i) => FinishKeeps(s, i);
    case Proceed(i) => ProceedKeeps(s, i);
    case Wake(i) => WakeKeeps(s, i);
    case Inhibit => InhibitKeeps(s, e);
    case InhibitorWakes => InhibitKeeps(s, e);
    case Resume => ResumeKeeps(s);
  }

  lemma {:induction false} RunKeeps(s: State, evs: seq<Event>)
    requires Inv(s) && Valid(s, evs)
    ensures Inv(Exec(s, evs))
    decreases |evs|
  {
    if evs != [] {
      StepKeeps(s, evs[0]);
      RunKeeps(Step(s, evs[0]), evs[1..]);
    }
  }

  lemma StartIsOk(n: nat)
    requires n > 0
    ensures Inv(Start(n))
  {
    AllAsleep(Start(n).workers);
  }

  // ----- the results

  /** Worker `i` is executing a request for `port`. */
  predicate WorksFor(s: State, i: nat, port: nat) {
    i < |s.workers| && s.workers[i].mode.Busy? && s.workers[i].mode.request.port == port
  }

  /** For any number of workers and any interleaving: requests for an object start in the order they
      arrived, at most one of them is in progress, and private queues hold only requests for the
      object their worker has. */
  lemma OrderAndExclusion(n: nat, evs: seq<Event>)
    requires n > 0 && Valid(Start(n), evs)
    ensures var s := Exec(Start(n), evs);
            && (forall port: nat :: port != 0 ==>
                  && For(s.finished, port) <= For(s.started, port) <= For(s.arrived, port)
                  && |For(s.started, port)| <= |For(s.finished, port)| + 1)
            && (forall i, j, port :: WorksFor(s, i, port) && WorksFor(s, j, port) ==> i == j)
            && (forall i, k :: 0 <= i < |s.workers| && 0 <= k < |s.workers[i].queue| ==>
                  s.workers[i].queue[k].port == s.workers[i].tag != 0)
  {
    var s := Exec(Start(n), evs);
    StartIsOk(n);
    RunKeeps(Start(n), evs);
    forall port: nat | port != 0
      ensures For(s.finished, port) <= For(s.started, port) <= For(s.arrived, port)
      ensures |For(s.started, port)| <= |For(s.finished, port)| + 1
    {
      assert InLine(s, port);
    }
    forall i, k | 0 <= i < |s.workers| && 0 <= k < |s.workers[i].queue|
      ensures s.workers[i].queue[k].port == s.workers[i].tag != 0
    {
      assert WorkerOk(s.workers[i]);
    }
    forall i: nat, j: nat, port | WorksFor(s, i, port) && WorksFor(s, j, port) ensures i == j {
      assert WorkerOk(s.workers[i]) && WorkerOk(s.workers[j]);
    }
  }

  /** No wake-up is lost: while a request is queued for the workers some worker is awake or signalled,
      and the inhibitor does not wait unsignalled for what has already happened. */
  lemma NoLostWakeup(n: nat, evs: seq<Event>)
    requires n > 0 && Valid(Start(n), evs)
    ensures var s := Exec(Start(n), evs);
            && (s.out != [] ==> exists i :: 0 <= i < |s.workers| && s.workers[i].mode != Asleep(false))
            && (s.inhibitor == Waiting(false) ==>
                  s.out != [] || exists i :: 0 <= i < |s.workers| && !s.workers[i].mode.Asleep?)
  {
    var s := Exec(Start(n), evs);
    StartIsOk(n);
    RunKeeps(Start(n), evs);
    AllAsleep(s.workers);
    if s.out != [] {
      var i :| 0 <= i < |s.workers| && !Sleeping(s.workers[i]);
    }
  }

  /** The assertions of pager_inhibit_workers and pager_resume_workers hold whenever these are called in
      turn, spurious wake-ups or not. */
  lemma AssertionsHold(n: nat, evs: seq<Event>)
    requires n > 0 && Valid(Start(n), evs)
    ensures var s := Exec(Start(n), evs);
            && (Enabled(s, Inhibit) ==> !s.split)
            && (Enabled(s, Resume) ==> s.split && s.asleep == |s.workers| && s.out == [])
  {
    StartIsOk(n);
    RunKeeps(Start(n), evs);
  }

  lemma FetchFrame(s: State, i: nat)
    requires i < |s.workers|
    ensures var t := Fetch(s, i);
            t.arrived == s.arrived && t.incoming == s.incoming && t.split == s.split && t.finished == s.finished
    decreases |s.out|
  {
  }

  /** Until it is resumed, what arrives is kept apart. */
  lemma ApartStep(s: State, e: Event, before: seq<Request>)
    requires Inv(s) && Enabled(s, e) && e != Resume && s.split && s.arrived == before + s.incoming
    ensures var t := Step(s, e);
            && t.split && t.arrived == before + t.incoming
            && (s.inhibitor.On? ==> t.inhibitor.On? && t.started == s.started)
  {
    AllAsleep(s.workers);
    match e
    case Proceed(i) =>
      if s.workers[i].queue == [] {
        FetchFrame(SetWorker(s, i, s.workers[i].(tag := 0)), i);
      }
    case Wake(i) => FetchFrame(SetWorker(s.(asleep := s.asleep - 1), i, s.workers[i].(mode := Ready)), i);
    case _ =>
  }

  lemma {:induction false} ApartRun(s: State, evs: seq<Event>, before: seq<Request>)
    requires Inv(s) && Valid(s, evs) && Resume !in evs && s.split && s.arrived == before + s.incoming
    ensures var t := Exec(s, evs);
            && t.split && t.arrived == before + t.incoming
            && (s.inhibitor.On? ==> t.inhibitor.On? && t.started == s.started)
    decreases |evs|
  {
    if evs != [] {
      ApartStep(s, evs[0], before);
      StepKeeps(s, evs[0]);
      ApartRun(Step(s, evs[0]), evs[1..], before);
    }
  }

  /** When pager_inhibit_workers, called after `evs`, has returned after `more`, every request that
      arrived before the call has finished and none that arrived since has started; and whatever
      happens then, short of resuming, none starts. */
  lemma Quiescence(n: nat, evs: seq<Event>, more: seq<Event>, later: seq<Event>)
    requires n > 0 && Valid(Start(n), evs) && Enabled(Exec(Start(n), evs), Inhibit)
    requires Valid(Step(Exec(Start(n), evs), Inhibit), more) && Resume !in more && Resume !in later
    requires Exec(Step(Exec(Start(n), evs), Inhibit), more).inhibitor.On?
    requires Valid(Exec(Step(Exec(Start(n), evs), Inhibit), more), later)
    ensures var s := Exec(Start(n), evs);
            var t := Exec(Step(s, Inhibit), more);
            && (forall port: nat :: port != 0 ==> For(t.finished, port) == For(t.started, port) == For(s.arrived, port))
            && Exec(t, later).started == t.started && Exec(t, later).inhibitor.On?
  {
    var s := Exec(Start(n), evs);
    StartIsOk(n);
    RunKeeps(Start(n), evs);
    var i := Step(s, Inhibit);
    StepKeeps(s, Inhibit);
    assert s.arrived == s.arrived + i.incoming;
    ApartRun(i, more, s.arrived);
    RunKeeps(i, more);
    var t := Exec(i, more);
    ApartRun(t, later, s.arrived);
    forall port: nat | port != 0 ensures For(t.finished, port) == For(t.started, port) == For(s.arrived, port) {
      DrainedLine(s, t, port);
    }
  }

  lemma DrainedLine(s: State, t: State, port: nat)
    requires port != 0 && Inv(t) && t.inhibitor.On? && t.arrived == s.arrived + t.incoming
    ensures For(t.finished, port) == For(t.started, port) == For(s.arrived, port)
  {
    AllAsleep(t.workers);
    assert InLine(t, port);
    ForConcat(s.arrived, t.incoming, port);
    var j := Owner(t.workers, port, 0);
    assert j < |t.workers| ==> WorkerOk(t.workers[j]);
    var a, b, inc := For(s.arrived, port), For(t.started, port), For(t.incoming, port);
    assert a + inc == b + inc;
    assert |a| == |b| && (a + inc)[..|a|] == a && (b + inc)[..|b|] == b;
  }
}
