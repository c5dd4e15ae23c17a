/**
The pager together with its client kernels: a directory protocol over FIFO channels.  For every run
in which the kernels keep to their side of the external memory object protocol, the pager never
hands out anything but the latest version of the page.
*/
module Coherence {
  import opened PageSpec
  import opened PagerRun

  // ----- kernels and channels

  /** The page as a kernel holds it. */
  datatype Copy = Copy(version: Content, writable: bool, dirty: bool)

  /** What a kernel sends to the pager about the page. */
  datatype Call =
    | WantPage(write: bool)
    | WantWrite                                                   // memory_object_data_unlock
    | GiveBack(version: Content, dirty: bool, kernelCopy: bool)   // memory_object_data_return
    | LockDone

  datatype Kernel = Kernel(page: Option<Copy>, inbox: seq<Msg>, outbox: seq<Call>)

  const NewKernel := Kernel(None, [], [])

  /** `latest` is the last version any kernel made, `store` the one in the backing store. */
  datatype Sys = Sys(run: Run, kernels: map<Client, Kernel>, latest: Content, store: Content)

  function At(s: Sys, k: Client): Kernel {
    if k in s.kernels then s.kernels[k] else NewKernel
  }

  function Start(v: Content): Sys {
    Sys(Init, map[], v, v)
  }

  // ----- counting

  /** How many of the first `n` elements satisfy `p`. */
  function NumTo<T(!new)>(xs: seq<T>, p: T -> bool, n: nat): nat
    requires n <= |xs|
  {
    if n == 0 then 0 else NumTo(xs, p, n - 1) + if p(xs[n - 1]) then 1 else 0
  }

  function Num<T(!new)>(xs: seq<T>, p: T -> bool): nat {
    NumTo(xs, p, |xs|)
  }

  lemma {:induction false} NumToConcat<T(!new)>(xs: seq<T>, ys: seq<T>, p: T -> bool, n: nat)
    requires n <= |xs| + |ys|
    ensures NumTo(xs + ys, p, n) == if n <= |xs| then NumTo(xs, p, n) else NumTo(xs, p, |xs|) + NumTo(ys, p, n - |xs|)
    decreases n
  {
    if n > 0 {
      NumToConcat(xs, ys, p, n - 1);
    }
  }

  lemma NumConcat<T(!new)>(xs: seq<T>, ys: seq<T>, p: T -> bool)
    ensures Num(xs + ys, p) == Num(xs, p) + Num(ys, p)
  {
    NumToConcat(xs, ys, p, |xs| + |ys|);
  }

  lemma NumOne<T(!new)>(x: T, p: T -> bool)
    ensures Num([x], p) == if p(x) then 1 else 0
  {
    assert NumTo([x], p, 0) == 0;
  }

  lemma NumPush<T(!new)>(xs: seq<T>, x: T, p: T -> bool)
    ensures Num(xs + [x], p) == Num(xs, p) + if p(x) then 1 else 0
  {
    NumConcat(xs, [x], p);
    NumOne(x, p);
  }

  lemma NumHead<T(!new)>(xs: seq<T>, p: T -> bool)
    requires xs != []
    ensures Num(xs, p) == Num(xs[1..], p) + if p(xs[0]) then 1 else 0
  {
    assert xs == [xs[0]] + xs[1..];
    NumConcat([xs[0]], xs[1..], p);
    NumOne(xs[0], p);
  }

  lemma {:induction false} NumMember<T(!new)>(xs: seq<T>, p: T -> bool, i: nat, n: nat)
    requires i < n <= |xs| && p(xs[i])
    ensures NumTo(xs, p, n) > 0
    decreases n
  {
    if i < n - 1 {
      NumMember(xs, p, i, n - 1);
    }
  }

  lemma {:induction false} NumLe<T(!new)>(xs: seq<T>, p: T -> bool, r: T -> bool, n: nat)
    requires n <= |xs| && forall x :: p(x) ==> r(x)
    ensures NumTo(xs, p, n) <= NumTo(xs, r, n)
    decreases n
  {
    if n > 0 {
      NumLe(xs, p, r, n - 1);
    }
  }

  predicate IsRequest(c: Call) { c.WantPage? || c.WantWrite? }
  predicate IsWantPage(c: Call) { c.WantPage? }
  predicate IsGive(c: Call) { c.GiveBack? && !c.kernelCopy }
  predicate IsDirty(c: Call) { c.GiveBack? && c.dirty }
  predicate IsDone(c: Call) { c.LockDone? }
  predicate IsAnswer(m: Msg) { !m.Lock? }
  predicate IsSupply(m: Msg) { m.Supply? }
  predicate IsWritable(m: Msg) { m.Supply? && !m.readOnly }
  predicate IsGrant(m: Msg) { m.Grant? }
  predicate IsCounted(m: Msg) { m.Lock? && m.reply }

  function Of(k: Client): Waiter -> bool {
    (w: Waiter) => w.client == k
  }

  // ----- the last event that matters for revocation

  /** `Had` marks a place where the kernel has, or gives back, the page; `Closed` a flush, or the
      completion of one. */
  datatype Mark = Nothing | Had | Closed

  function MsgMark(m: Msg): Mark {
    if m.Supply? then Had else if m == Flush || (m.Lock? && m.flush && m.reply) then Closed else Nothing
  }

  function CallMark(c: Call): Mark {
    if IsGive(c) then Had else if c.LockDone? then Closed else Nothing
  }

  /** The last mark among the first `n` elements. */
  function LastTo<T(!new)>(xs: seq<T>, f: T -> Mark, n: nat): Mark
    requires n <= |xs|
  {
    if n == 0 then Nothing else if f(xs[n - 1]) != Nothing then f(xs[n - 1]) else LastTo(xs, f, n - 1)
  }

  function Last<T(!new)>(xs: seq<T>, f: T -> Mark): Mark {
    LastTo(xs, f, |xs|)
  }

  lemma {:induction false} LastToConcat<T(!new)>(xs: seq<T>, ys: seq<T>, f: T -> Mark, n: nat)
    requires n <= |xs| + |ys|
    ensures LastTo(xs + ys, f, n) ==
            if n <= |xs| then LastTo(xs, f, n)
            else if LastTo(ys, f, n - |xs|) != Nothing then LastTo(ys, f, n - |xs|) else LastTo(xs, f, |xs|)
    decreases n
  {
    if n > 0 {
      LastToConcat(xs, ys, f, n - 1);
    }
  }

  lemma LastConcat<T(!new)>(xs: seq<T>, ys: seq<T>, f: T -> Mark)
    ensures Last(xs + ys, f) == if Last(ys, f) != Nothing then Last(ys, f) else Last(xs, f)
  {
    LastToConcat(xs, ys, f, |xs| + |ys|);
  }

  lemma LastOne<T(!new)>(x: T, f: T -> Mark)
    ensures Last([x], f) == f(x)
  {
    assert LastTo([x], f, 0) == Nothing;
  }

  lemma LastHead<T(!new)>(xs: seq<T>, f: T -> Mark)
    requires xs != []
    ensures Last(xs, f) == if Last(xs[1..], f) != Nothing then Last(xs[1..], f) else f(xs[0])
  {
    assert xs == [xs[0]] + xs[1..];
    LastConcat([xs[0]], xs[1..], f);
    LastOne(xs[0], f);
  }

  /** The mark of the last place on the way from the pager to the kernel and back. */
  function Tail(q: Kernel): Mark {
    if Last(q.inbox, MsgMark) != Nothing then Last(q.inbox, MsgMark)
    else if q.page.Some? then Had
    else Last(q.outbox, CallMark)
  }

  function LastDirtyTo(cs: seq<Call>, n: nat): Option<Content>
    requires n <= |cs|
  {
    if n == 0 then None else if IsDirty(cs[n - 1]) then Some(cs[n - 1].version) else LastDirtyTo(cs, n - 1)
  }

  /** The version in the last dirty data_return under way. */
  function LastDirty(cs: seq<Call>): Option<Content> {
    LastDirtyTo(cs, |cs|)
  }

  lemma {:induction false} LastDirtyConcat(xs: seq<Call>, ys: seq<Call>, n: nat)
    requires n <= |xs| + |ys|
    ensures LastDirtyTo(xs + ys, n) ==
            if n <= |xs| then LastDirtyTo(xs, n)
            else if LastDirtyTo(ys, n - |xs|).Some? then LastDirtyTo(ys, n - |xs|) else LastDirty(xs)
    decreases n
  {
    if n > 0 {
      LastDirtyConcat(xs, ys, n - 1);
    }
  }

  lemma {:induction false} LastDirtyNum(cs: seq<Call>, n: nat)
    requires n <= |cs|
    ensures LastDirtyTo(cs, n).Some? <==> NumTo(cs, IsDirty, n) > 0
    decreases n
  {
    if n > 0 {
      LastDirtyNum(cs, n - 1);
    }
  }

  // ----- moves

  datatype Move =
    | Ask(k: Client, write: bool)
    | AskWrite(k: Client)
    | Modify(k: Client)
    | GiveUp(k: Client, silently: bool)
    | Receive(k: Client, precious: bool)
    | Handle(k: Client)
    | Backing(ev: Event)
    | External(cs: set<Client>, keep: Keep, flush: bool, reply: bool)
    | Depart(k: Client)

  /** A request of `k` that has been sent and not yet answered. */
  predicate Outstanding(s: Sys, k: Client) {
    || Num(At(s, k).outbox, IsRequest) > 0
    || Num(s.run.page.entry.wait, Of(k)) > 0
    || Num(At(s, k).inbox, IsAnswer) > 0
  }

  function EventOf(k: Client, c: Call): Event {
    match c
    case WantPage(write) => Request(k, write)
    case WantWrite => AskUnlock(k)
    case GiveBack(v, dirty, kernelCopy) => Return(k, v, dirty, kernelCopy)
    case LockDone => Completed(k)
  }

  /** The rules: a kernel asks for the page only when it does not have it and has no request
      outstanding, writes only to a writable page, and gives modified data up only in a dirty
      data_return; the translator never discards data; the backing store returns what was written
      last, and its writes succeed.  A kernel that does not have the page, has nothing on its channels, does
      not wait and owes no completion may leave; it may come back. */
  ghost predicate Permitted(s: Sys, m: Move) {
    match m
    case Ask(k, _) => k != MACH_PORT_DEAD && At(s, k).page.None? && !Outstanding(s, k)
    case AskWrite(k) =>
      k != MACH_PORT_DEAD && At(s, k).page.Some? && !At(s, k).page.value.writable && !Outstanding(s, k)
    case Modify(k) => At(s, k).page.Some? && At(s, k).page.value.writable
    case GiveUp(k, silently) => At(s, k).page.Some? && (silently ==> !At(s, k).page.value.dirty)
    case Receive(k, _) => At(s, k).inbox != []
    case Handle(k) => At(s, k).outbox != [] && s.run.pc.Idle? && k != MACH_PORT_DEAD
    case Backing(ev) =>
      && Enabled(s.run, ev)
      && (ev.ReadDone? || ev.UnlockDone? || ev.WriteDone?)
      && (ev.ReadDone? && ev.err == KERN_SUCCESS ==> ev.data == s.store)
      && (ev.WriteDone? ==> ev.err == KERN_SUCCESS)
    case External(cs, keep, flush, reply) =>
      MACH_PORT_DEAD !in cs && !s.run.pc.Halted? && !s.run.pc.Thrown? && !(flush && keep.ReturnNone?)
    case Depart(k) =>
      && s.run.pc.Idle? && At(s, k).page.None? && At(s, k).inbox == [] && At(s, k).outbox == []
      && Num(s.run.page.entry.wait, Of(k)) == 0 && k !in s.run.page.locks
  }

  /** And the hypothesis on the pager: no dirty return is served twice over. */
  ghost predicate Allowed(s: Sys, m: Move) {
    Permitted(s, m) && (m.Backing? ==> Guarded(s.run, m.ev))
  }

  /** What a lock request does to the page; `precious` tells whether a clean page has to be returned. */
  function Obey(q: Kernel, lock: Msg, precious: bool): Kernel
    requires lock.Lock?
  {
    if q.page.None? then q
    else
      var c := q.page.value;
      var back := (c.dirty && !lock.keep.ReturnNone?) || (precious && lock.keep.ReturnAll?);
      if lock.flush then
        q.(page := None, outbox := q.outbox + if back then [GiveBack(c.version, c.dirty, false)] else [])
      else if back then
        q.(page := Some(c.(dirty := false)), outbox := q.outbox + [GiveBack(c.version, c.dirty, true)])
      else q
  }

  /** A kernel carries out the first message of its inbox. */
  function Process(q: Kernel, precious: bool): Kernel
    requires q.inbox != []
  {
    var rest := q.(inbox := q.inbox[1..]);
    match q.inbox[0]
    case Supply(v, _, readOnly) => if q.page.Some? then rest else rest.(page := Some(Copy(v, !readOnly, false)))
    case Error(_) => rest
    case Grant => if q.page.Some? then rest.(page := Some(q.page.value.(writable := true))) else rest
    case Lock(_, _, reply) =>
      var done := Obey(q, q.inbox[0], precious);
      done.(inbox := q.inbox[1..], outbox := done.outbox + if reply then [LockDone] else [])
  }

  /** The pager takes a step, and its messages go to the inboxes. */
  function Deliver(s: Sys, ev: Event): Sys
    requires Enabled(s.run, ev)
  {
    var t := Step(s.run, ev);
    var sent := t.page;
    s.(run := t.(page := sent.(box := map[])),
       kernels := map k | k in s.kernels.Keys + sent.box.Keys :: At(s, k).(inbox := At(s, k).inbox + Box(sent, k)))
  }

  function Put(s: Sys, k: Client, q: Kernel): Sys {
    s.(kernels := s.kernels[k := q])
  }

  ghost function Do(s: Sys, m: Move): Sys
    requires Permitted(s, m)
  {
    match m
    case Ask(k, write) => Put(s, k, At(s, k).(outbox := At(s, k).outbox + [WantPage(write)]))
    case AskWrite(k) => Put(s, k, At(s, k).(outbox := At(s, k).outbox + [WantWrite]))
    case Modify(k) =>
      Put(s, k, At(s, k).(page := Some(Copy(s.latest + 1, true, true)))).(latest := s.latest + 1)
    case GiveUp(k, silently) =>
      var q := At(s, k);
      var back := if silently then [] else [GiveBack(q.page.value.version, q.page.value.dirty, false)];
      Put(s, k, q.(page := None, outbox := q.outbox + back))
    case Receive(k, precious) => Put(s, k, Process(At(s, k), precious))
    case Handle(k) =>
      var q := At(s, k);
      Deliver(Put(s, k, q.(outbox := q.outbox[1..])), EventOf(k, q.outbox[0]))
    case Backing(ev) =>
      var t := Deliver(s, ev);
      if ev.WriteDone? then t.(store := s.run.pc.data) else t
    case External(cs, keep, flush, reply) => Deliver(s, Locked(cs, keep, flush, reply))
    case Depart(k) => Deliver(s, Dropped(k))
  }

  ghost predicate Lawful(start: Sys, ms: seq<Move>)
    decreases |ms|, 0
  {
    ms == [] || (Lawful(start, ms[..|ms| - 1]) && Allowed(After(start, ms[..|ms| - 1]), ms[|ms| - 1]))
  }

  ghost function After(start: Sys, ms: seq<Move>): Sys
    requires Lawful(start, ms)
    decreases |ms|, 1
  {
    if ms == [] then start else Do(After(start, ms[..|ms| - 1]), ms[|ms| - 1])
  }

  // ----- the invariant of one client

  function Holds(q: Kernel): nat {
    Num(q.outbox, IsGive) + (if q.page.Some? then 1 else 0) + Num(q.inbox, IsSupply)
  }

  /** The kernel can write, could once its messages arrive, or has written what the pager does not know yet. */
  predicate MayWrite(q: Kernel) {
    || (q.page.Some? && (q.page.value.writable || Num(q.inbox, IsGrant) > 0))
    || Num(q.inbox, IsWritable) > 0
    || Num(q.outbox, IsDirty) > 0
  }

  predicate Unsaved(q: Kernel) {
    (q.page.Some? && q.page.value.dirty) || Num(q.outbox, IsDirty) > 0
  }

  /** A request is in one place only: on its way, waiting, or answered on the way back. */
  predicate OneRequest(pg: Page, k: Client, q: Kernel) {
    Num(q.outbox, IsRequest) + Num(pg.entry.wait, Of(k)) + Num(q.inbox, IsAnswer) <= 1
  }

  /** The page is in one place only, and whoever has it is on ACCESSLIST. */
  predicate OnePage(pg: Page, k: Client, q: Kernel) {
    Holds(q) <= 1 && (Holds(q) == 1 ==> k in pg.entry.access)
  }

  /** Nothing is returned after the page has been given up or asked for. */
  ghost predicate Ordered(q: Kernel) {
    && (forall i, j :: 0 <= i < j < |q.outbox| && (IsGive(q.outbox[i]) || q.outbox[i].WantPage?) ==>
         !q.outbox[j].GiveBack?)
    && (Num(q.outbox, IsWantPage) > 0 ==> q.page.None?)
  }

  ghost predicate Versions(latest: Content, q: Kernel) {
    && (q.page.Some? ==> q.page.value.version == latest)
    && (forall i :: 0 <= i < |q.inbox| && q.inbox[i].Supply? ==> q.inbox[i].data == latest)
    && (forall i :: 0 <= i < |q.outbox| && IsGive(q.outbox[i]) ==> q.outbox[i].version == latest)
    && (q.page.Some? && q.page.value.dirty ==> q.page.value.writable)
    && (LastDirty(q.outbox).Some? && !(q.page.Some? && q.page.value.dirty) ==> LastDirty(q.outbox).value == latest)
  }

  /** No lock request throws modified data away. */
  ghost predicate Careful(q: Kernel) {
    forall i :: 0 <= i < |q.inbox| && q.inbox[i].Lock? ==> !(q.inbox[i].flush && q.inbox[i].keep.ReturnNone?)
  }

  /** The pager is between handlers, or in the write-back of a data_return. */
  predicate Settled(pc: Pc) {
    pc.Idle? || pc.Writing?
  }

  ghost predicate ClientInv(run: Run, latest: Content, k: Client, q: Kernel) {
    var pg := run.page;
    && OneRequest(pg, k, q)
    && OnePage(pg, k, q)
    && Ordered(q)
    && Count(pg, k) == Num(q.inbox, IsCounted) + Num(q.outbox, IsDone)
    && (Settled(run.pc) && pg.entry.wait != [] && k in pg.entry.access ==> Tail(q) != Had)
    && (MayWrite(q) ==> k in pg.hist.writers)
    && Versions(latest, q)
    && Careful(q)
  }

  ghost predicate PagerInv(run: Run) {
    && Orderly(run) && Exclusive(run)
    && run.page.box == map[] && !run.page.entry.invalid && run.dropping.None?
  }

  /** If nobody has unsaved data, the latest version is in the backing store, or being written to it. */
  ghost predicate StoreInv(s: Sys) {
    (forall k :: !Unsaved(At(s, k))) ==>
      (if s.run.pc.Writing? then s.run.pc.data == s.latest else s.store == s.latest)
  }

  ghost predicate Inv(s: Sys) {
    s.run.pc.Halted? ||
    (PagerInv(s.run) && StoreInv(s) && forall k :: ClientInv(s.run, s.latest, k, At(s, k)))
  }

  // ----- facts about channels

  /** Counts and marks of an inbox in terms of its first message and the rest. */
  lemma PopMsg(ms: seq<Msg>)
    requires ms != []
    ensures Num(ms, IsAnswer) == Num(ms[1..], IsAnswer) + if IsAnswer(ms[0]) then 1 else 0
    ensures Num(ms, IsSupply) == Num(ms[1..], IsSupply) + if IsSupply(ms[0]) then 1 else 0
    ensures Num(ms, IsWritable) == Num(ms[1..], IsWritable) + if IsWritable(ms[0]) then 1 else 0
    ensures Num(ms, IsGrant) == Num(ms[1..], IsGrant) + if IsGrant(ms[0]) then 1 else 0
    ensures Num(ms, IsCounted) == Num(ms[1..], IsCounted) + if IsCounted(ms[0]) then 1 else 0
    ensures Last(ms, MsgMark) == if Last(ms[1..], MsgMark) != Nothing then Last(ms[1..], MsgMark) else MsgMark(ms[0])
  {
    NumHead(ms, IsAnswer);
    NumHead(ms, IsSupply);
    NumHead(ms, IsWritable);
    NumHead(ms, IsGrant);
    NumHead(ms, IsCounted);
    LastHead(ms, MsgMark);
  }

  /** The same for an inbox to which `ms` is added. */
  lemma PushMsgs(q: seq<Msg>, ms: seq<Msg>)
    ensures Num(q + ms, IsAnswer) == Num(q, IsAnswer) + Num(ms, IsAnswer)
    ensures Num(q + ms, IsSupply) == Num(q, IsSupply) + Num(ms, IsSupply)
    ensures Num(q + ms, IsWritable) == Num(q, IsWritable) + Num(ms, IsWritable)
    ensures Num(q + ms, IsGrant) == Num(q, IsGrant) + Num(ms, IsGrant)
    ensures Num(q + ms, IsCounted) == Num(q, IsCounted) + Num(ms, IsCounted)
    ensures Last(q + ms, MsgMark) == if Last(ms, MsgMark) != Nothing then Last(ms, MsgMark) else Last(q, MsgMark)
  {
    NumConcat(q, ms, IsAnswer);
    NumConcat(q, ms, IsSupply);
    NumConcat(q, ms, IsWritable);
    NumConcat(q, ms, IsGrant);
    NumConcat(q, ms, IsCounted);
    LastConcat(q, ms, MsgMark);
  }

  /** Counts and marks of an outbox in terms of its first call and the rest. */
  lemma PopCall(cs: seq<Call>)
    requires cs != []
    ensures Num(cs, IsRequest) == Num(cs[1..], IsRequest) + if IsRequest(cs[0]) then 1 else 0
    ensures Num(cs, IsWantPage) == Num(cs[1..], IsWantPage) + if IsWantPage(cs[0]) then 1 else 0
    ensures Num(cs, IsGive) == Num(cs[1..], IsGive) + if IsGive(cs[0]) then 1 else 0
    ensures Num(cs, IsDirty) == Num(cs[1..], IsDirty) + if IsDirty(cs[0]) then 1 else 0
    ensures Num(cs, IsDone) == Num(cs[1..], IsDone) + if IsDone(cs[0]) then 1 else 0
    ensures Last(cs, CallMark) == if Last(cs[1..], CallMark) != Nothing then Last(cs[1..], CallMark)
      else CallMark(cs[0])
    ensures LastDirty(cs) == if LastDirty(cs[1..]).Some? then LastDirty(cs[1..])
                             else if IsDirty(cs[0]) then Some(cs[0].version) else None
  {
    NumHead(cs, IsRequest);
    NumHead(cs, IsWantPage);
    NumHead(cs, IsGive);
    NumHead(cs, IsDirty);
    NumHead(cs, IsDone);
    LastHead(cs, CallMark);
    assert cs == [cs[0]] + cs[1..];
    LastDirtyConcat([cs[0]], cs[1..], |cs|);
    assert LastDirtyTo([cs[0]], 0) == None;
  }

  /** The same for an outbox to which a call is added. */
  lemma PushCall(cs: seq<Call>, c: Call)
    ensures Num(cs + [c], IsRequest) == Num(cs, IsRequest) + if IsRequest(c) then 1 else 0
    ensures Num(cs + [c], IsWantPage) == Num(cs, IsWantPage) + if IsWantPage(c) then 1 else 0
    ensures Num(cs + [c], IsGive) == Num(cs, IsGive) + if IsGive(c) then 1 else 0
    ensures Num(cs + [c], IsDirty) == Num(cs, IsDirty) + if IsDirty(c) then 1 else 0
    ensures Num(cs + [c], IsDone) == Num(cs, IsDone) + if IsDone(c) then 1 else 0
    ensures Last(cs + [c], CallMark) == if CallMark(c) != Nothing then CallMark(c) else Last(cs, CallMark)
    ensures LastDirty(cs + [c]) == if IsDirty(c) then Some(c.version) else LastDirty(cs)
  {
    NumPush(cs, c, IsRequest);
    NumPush(cs, c, IsWantPage);
    NumPush(cs, c, IsGive);
    NumPush(cs, c, IsDirty);
    NumPush(cs, c, IsDone);
    LastConcat(cs, [c], CallMark);
    LastOne(c, CallMark);
    LastDirtyConcat(cs, [c], |cs| + 1);
    assert LastDirtyTo([c], 0) == None;
  }

  lemma NoGive(cs: seq<Call>)
    requires Num(cs, IsGive) == 0 && Num(cs, IsWantPage) == 0
    ensures forall i :: 0 <= i < |cs| ==> !IsGive(cs[i]) && !cs[i].WantPage?
  {
    forall i | 0 <= i < |cs| ensures !IsGive(cs[i]) && !cs[i].WantPage? {
      if IsGive(cs[i]) { NumMember(cs, IsGive, i, |cs|); }
      if cs[i].WantPage? { NumMember(cs, IsWantPage, i, |cs|); }
    }
  }

  // ----- moves of a kernel

  /** Nothing of interest to the pager happened to the kernel, other than what `Outstanding` sees. */
  lemma AskKeeps(run: Run, latest: Content, k: Client, q: Kernel, c: Call)
    requires ClientInv(run, latest, k, q) && IsRequest(c)
    requires Num(q.outbox, IsRequest) + Num(run.page.entry.wait, Of(k)) + Num(q.inbox, IsAnswer) == 0
    requires c.WantPage? ==> q.page.None?
    ensures ClientInv(run, latest, k, q.(outbox := q.outbox + [c]))
    ensures Unsaved(q.(outbox := q.outbox + [c])) <==> Unsaved(q)
  {
    PushCall(q.outbox, c);
  }

  lemma GiveUpKeeps(run: Run, latest: Content, k: Client, q: Kernel, silently: bool)
    requires ClientInv(run, latest, k, q) && q.page.Some? && (silently ==> !q.page.value.dirty)
    ensures var back := if silently then [] else [GiveBack(q.page.value.version, q.page.value.dirty, false)];
            var q' := q.(page := None, outbox := q.outbox + back);
            ClientInv(run, latest, k, q') && (Unsaved(q') <==> Unsaved(q))
  {
    NoGive(q.outbox);
    if silently {
      assert q.outbox + [] == q.outbox;
    } else {
      PushCall(q.outbox, GiveBack(q.page.value.version, q.page.value.dirty, false));
    }
  }

  lemma ReceiveAnswerKeeps(run: Run, latest: Content, k: Client, q: Kernel, precious: bool)
    requires ClientInv(run, latest, k, q) && q.inbox != [] && IsAnswer(q.inbox[0])
    ensures ClientInv(run, latest, k, Process(q, precious))
    ensures Unsaved(Process(q, precious)) <==> Unsaved(q)
  {
    PopMsg(q.inbox);
    NumLe(q.inbox[1..], IsGrant, IsAnswer, |q.inbox| - 1);
    NumLe(q.outbox, IsWantPage, IsRequest, |q.outbox|);
  }

  /** A page returned without giving it up: what is dirty becomes clean. */
  lemma CopyBackKeeps(run: Run, latest: Content, k: Client, q: Kernel)
    requires ClientInv(run, latest, k, q) && q.page.Some?
    ensures var c := q.page.value;
            var q' := q.(page := Some(c.(dirty := false)), outbox := q.outbox + [GiveBack(c.version, c.dirty, true)]);
            ClientInv(run, latest, k, q') && (Unsaved(q') <==> Unsaved(q))
  {
    NoGive(q.outbox);
    PushCall(q.outbox, GiveBack(q.page.value.version, q.page.value.dirty, true));
  }

  /** A lock request leaves the inbox once its effect on the page is done. */
  lemma LockLeavesKeeps(run: Run, latest: Content, k: Client, q: Kernel)
    requires ClientInv(run, latest, k, q) && q.inbox != [] && q.inbox[0].Lock?
    requires q.inbox[0].flush ==> q.page.None?
    ensures var q' := q.(inbox := q.inbox[1..], outbox := q.outbox + if q.inbox[0].reply then [LockDone] else []);
            ClientInv(run, latest, k, q') && (Unsaved(q') <==> Unsaved(q))
  {
    PopMsg(q.inbox);
    var out := q.outbox + if q.inbox[0].reply then [LockDone] else [];
    if q.inbox[0].reply {
      PushCall(q.outbox, LockDone);
    } else {
      assert out == q.outbox;
    }
    LockLeaves(run, latest, k, q, out);
  }

  lemma LockLeaves(run: Run, latest: Content, k: Client, q: Kernel, out: seq<Call>)
    requires ClientInv(run, latest, k, q) && q.inbox != [] && q.inbox[0].Lock?
    requires q.inbox[0].flush ==> q.page.None?
    requires out == q.outbox + if q.inbox[0].reply then [LockDone] else []
    requires Num(out, IsRequest) == Num(q.outbox, IsRequest) && Num(out, IsWantPage) == Num(q.outbox, IsWantPage)
    requires Num(out, IsGive) == Num(q.outbox, IsGive) && Num(out, IsDirty) == Num(q.outbox, IsDirty)
    requires Num(out, IsDone) == Num(q.outbox, IsDone) + if q.inbox[0].reply then 1 else 0
    requires Last(out, CallMark) == if q.inbox[0].reply then Closed else Last(q.outbox, CallMark)
    requires LastDirty(out) == LastDirty(q.outbox)
    ensures var q' := q.(inbox := q.inbox[1..], outbox := out);
            ClientInv(run, latest, k, q') && (Unsaved(q') <==> Unsaved(q))
  {
    PopMsg(q.inbox);
    var q' := q.(inbox := q.inbox[1..], outbox := out);
    assert OneRequest(run.page, k, q') && OnePage(run.page, k, q');
    assert Ordered(q');
    assert MayWrite(q') ==> MayWrite(q);
    assert Tail(q') == Had ==> Tail(q) == Had;
    assert Versions(latest, q') && Careful(q');
  }

  lemma ObeyKeeps(run: Run, latest: Content, k: Client, q: Kernel, precious: bool)
    requires ClientInv(run, latest, k, q) && q.inbox != [] && q.inbox[0].Lock?
    ensures var q' := Obey(q, q.inbox[0], precious);
            ClientInv(run, latest, k, q') && (Unsaved(q') <==> Unsaved(q))
  {
    var lock := q.inbox[0];
    if q.page.Some? {
      var c := q.page.value;
      var back := (c.dirty && !lock.keep.ReturnNone?) || (precious && lock.keep.ReturnAll?);
      if lock.flush {
        GiveUpKeeps(run, latest, k, q, !back);
      } else if back {
        CopyBackKeeps(run, latest, k, q);
      }
    }
  }

  lemma ReceiveLockKeeps(run: Run, latest: Content, k: Client, q: Kernel, precious: bool)
    requires ClientInv(run, latest, k, q) && q.inbox != [] && q.inbox[0].Lock?
    ensures ClientInv(run, latest, k, Process(q, precious))
    ensures Unsaved(Process(q, precious)) <==> Unsaved(q)
  {
    ObeyKeeps(run, latest, k, q, precious);
    LockLeavesKeeps(run, latest, k, Obey(q, q.inbox[0], precious));
  }
}
