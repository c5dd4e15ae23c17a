/**
Errors that a client cannot be told of at once, because it has the page: the pager makes it flush, and tells it
when it asks again.  Over every run each client is told of exactly these errors, in order.
*/
module LateErrors {
  import opened PageSpec
  import opened PagerRun
  import opened Messages
  import opened PageErrors

  // ----- NEXTERROR, client by client

  /** The codes that are kept for `c`. */
  function Codes(es: seq<LateError>, c: Client): seq<int>
    decreases |es|
  {
    if es == [] then [] else (if es[0].client == c then [es[0].code] else []) + Codes(es[1..], c)
  }

  /** `code` once for each entry of `c`. */
  function EachCode(ws: seq<Waiter>, c: Client, code: int): seq<int>
    decreases |ws|
  {
    if ws == [] then [] else (if ws[0].client == c then [code] else []) + EachCode(ws[1..], c, code)
  }

  lemma {:induction false} CodesConcat(a: seq<LateError>, b: seq<LateError>, c: Client)
    ensures Codes(a + b, c) == Codes(a, c) + Codes(b, c)
    decreases |a|
  {
    if a == [] {
      assert a + b == b;
    } else {
      assert (a + b)[1..] == a[1..] + b && (a + b)[0] == a[0];
      CodesConcat(a[1..], b, c);
      Associate(if a[0].client == c then [a[0].code] else [], Codes(a[1..], c), Codes(b, c));
    }
  }

  lemma Associate(x: seq<int>, y: seq<int>, z: seq<int>)
    ensures x + y + z == x + (y + z)
  {
  }

  lemma OneCode(e: LateError, c: Client)
    ensures Codes([e], c) == if e.client == c then [e.code] else []
  {
    assert [e][1..] == [];
  }

  lemma {:induction false} NoCodes(es: seq<LateError>, a: Client)
    requires forall j :: 0 <= j < |es| ==> es[j].client != a
    ensures Codes(es, a) == []
    decreases |es|
  {
    if es != [] {
      NoCodes(es[1..], a);
    }
  }

  /** The first entry of a client is its first code. */
  lemma FirstCode(es: seq<LateError>, a: Client, c: Client)
    ensures var i := FirstError(es, a);
            if i == |es| then Codes(es, a) == []
            else && Codes(es, a) != [] && Codes(es, a)[0] == es[i].code
                 && Codes(es[..i] + es[i + 1..], c) == if c == a then Codes(es, c)[1..] else Codes(es, c)
  {
    var i := FirstError(es, a);
    NoCodes(es[..i], a);
    if i == |es| {
      assert es[..i] == es;
    } else {
      assert es == es[..i] + ([es[i]] + es[i + 1..]);
      TakenFirst(es[..i], es[i], es[i + 1..]);
      if c != a {
        NotTaken(es[..i], es[i], es[i + 1..], c);
      }
    }
  }

  lemma TakenFirst(x: seq<LateError>, e: LateError, y: seq<LateError>)
    requires Codes(x, e.client) == []
    ensures Codes(x + ([e] + y), e.client) == [e.code] + Codes(y, e.client)
    ensures Codes(x + y, e.client) == Codes(y, e.client) == Codes(x + ([e] + y), e.client)[1..]
  {
    CodesConcat(x, [e] + y, e.client);
    CodesConcat([e], y, e.client);
    OneCode(e, e.client);
    CodesConcat(x, y, e.client);
  }

  lemma NotTaken(x: seq<LateError>, e: LateError, y: seq<LateError>, c: Client)
    requires c != e.client
    ensures Codes(x + y, c) == Codes(x + ([e] + y), c)
  {
    CodesConcat(x, [e] + y, c);
    CodesConcat([e], y, c);
    OneCode(e, c);
    CodesConcat(x, y, c);
    assert [] + Codes(y, c) == Codes(y, c);
  }

  // ----- what each event adds and takes away

  /** The errors that `ev` brings and that `c` cannot be told of at once: that of an unlock of its own, or that
      of a page-in for which it waits while it has access. */
  function DeferredBy(s: Run, ev: Event, c: Client): seq<int>
    requires Enabled(s, ev)
  {
    var e := s.page.entry;
    match ev
    case UnlockDone(err) => if err != KERN_SUCCESS && e.wait != [] && e.wait[0].client == c then [err] else []
    case ReadDone(err, _, _) => if err != KERN_SUCCESS && c in e.access then EachCode(e.wait, c, err) else []
    case _ => []
  }

  /** The codes kept for `c` after `ev`. */
  function CodesAfter(s: Run, ev: Event, c: Client): seq<int>
    requires Enabled(s, ev)
  {
    var codes := Codes(s.page.nextError, c);
    if Forgets(s, ev) then []
    else if ev.Request? && ev.client == c && codes != [] then codes[1..]
    else codes + DeferredBy(s, ev, c)
  }

  lemma {:induction false} ErrorCodes(pg: Page, ws: seq<Waiter>, c: Client)
    ensures Codes(ErrorAll(pg, ws).nextError, c) ==
            Codes(pg.nextError, c) + if c in pg.entry.access then EachCode(ws, c, pg.entry.error) else []
    decreases |ws|
  {
    if ws != [] {
      var one := ErrorOne(pg, ws[0]);
      ErrorCodes(one, ws[1..], c);
      CodesConcat(pg.nextError, [LateError(ws[0].client, pg.entry.error)], c);
      OneCode(LateError(ws[0].client, pg.entry.error), c);
      assert one.entry == pg.entry;
    }
  }

  lemma {:induction false} NobodyDeferred(pg: Page, ws: seq<Waiter>)
    requires pg.entry.access == {}
    ensures ErrorAll(pg, ws).nextError == pg.nextError
    decreases |ws|
  {
    if ws != [] {
      NobodyDeferred(ErrorOne(pg, ws[0]), ws[1..]);
    }
  }

  lemma CompleteLate(s: Run, pg: Page, a: Client, dropping: Option<Client>)
    ensures var t := Continue(s, CompleteInternal(pg, a), dropping);
            !t.pc.Halted? ==> t.page.nextError == pg.nextError
  {
    var left := Evict(pg, a);
    if left.entry.access == {} {
      NobodyDeferred(left, left.entry.wait);
    }
  }

  lemma RequestOutcome(pg: Page, a: Client, write: bool)
    requires FirstError(pg.nextError, a) == |pg.nextError| && (a !in pg.entry.access || pg.entry.wait == [])
    ensures var out := DataRequest(pg, a, write); out.Go? && out.page.nextError == pg.nextError
  {
  }

  lemma RequestLate(s: Run, a: Client, write: bool, c: Client)
    requires s.pc.Idle? && !s.page.entry.pagingOut
    ensures var t := Step(s, Request(a, write));
            !t.pc.Halted? ==> Codes(t.page.nextError, c) == CodesAfter(s, Request(a, write), c)
  {
    var pg := s.page;
    FirstCode(pg.nextError, a, c);
    if FirstError(pg.nextError, a) == |pg.nextError| {
      assert Codes(pg.nextError, c) + [] == Codes(pg.nextError, c);
      if a in pg.entry.access && pg.entry.wait != [] {
        CompleteLate(s, Enqueue(pg, a, write), a, None);
      } else {
        RequestOutcome(pg, a, write);
        assert Continue(s, DataRequest(pg, a, write), None).page == DataRequest(pg, a, write).page;
      }
    }
  }

  lemma ReturnLate(s: Run, a: Client, data: Content, dirty: bool, kernelCopy: bool)
    requires s.pc.Idle?
    ensures var t, ev := Step(s, Return(a, data, dirty, kernelCopy)), Return(a, data, dirty, kernelCopy);
            !t.pc.Halted? ==> t.page.nextError == if Forgets(s, ev) then [] else s.page.nextError
  {
    var out := DataReturn(s.page, a, data, dirty, kernelCopy);
    ReturnOutcome(s.page, a, data, dirty, kernelCopy);
    if out.Go? {
      assert Continue(s, out, None).page == out.page;
    }
  }

  lemma UnlockLate(pg: Page, err: int, c: Client)
    requires pg.entry.wait != []
    ensures Codes(FinalizeUnlock(pg, err).nextError, c) ==
            Codes(pg.nextError, c) + if err != KERN_SUCCESS && pg.entry.wait[0].client == c then [err] else []
  {
    var late := LateError(pg.entry.wait[0].client, err);
    CodesConcat(pg.nextError, [late], c);
    OneCode(late, c);
    assert Codes(pg.nextError, c) + [] == Codes(pg.nextError, c);
  }

  lemma ReadLate(s: Run, err: int, data: Content, writeLock: bool, c: Client)
    requires Orderly(s) && s.pc.Paging?
    ensures var ev := ReadDone(err, data, writeLock);
            Codes(Step(s, ev).page.nextError, c) == Codes(s.page.nextError, c) + DeferredBy(s, ev, c)
  {
    var noted := s.page.(entry := s.page.entry.(error := err));
    assert Codes(s.page.nextError, c) + [] == Codes(s.page.nextError, c);
    if err == KERN_SUCCESS {
      ServiceEffect(noted, data, !writeLock, true);
    } else {
      ErrorCodes(noted, noted.entry.wait, c);
    }
  }

  lemma WriteLate(s: Run, err: int)
    requires s.pc.Writing?
    ensures var ev := WriteDone(err);
            Step(s, ev).page.nextError == if Forgets(s, ev) then [] else s.page.nextError
  {
    var out := EndWrite(s.page, err, s.pc.data, true, true).page;
    if out.entry.wait != [] {
      ServiceEffect(out, s.pc.data, true, false);
    }
  }

  lemma StepLate(s: Run, ev: Event, c: Client)
    requires Orderly(s) && Enabled(s, ev) && !Step(s, ev).pc.Halted?
    ensures Codes(Step(s, ev).page.nextError, c) == CodesAfter(s, ev, c)
  {
    assert Codes(s.page.nextError, c) + [] == Codes(s.page.nextError, c);
    match ev
    case Request(a, write) => RequestLate(s, a, write, c);
    case Completed(a) => CompleteLate(s, s.page.(locks := s.page.locks - {a}), a, None);
    case Dropped(a) => CompleteLate(s, s.page.(locks := s.page.locks - {a}), a, Some(a));
    case Return(a, data, dirty, kernelCopy) => ReturnLate(s, a, data, dirty, kernelCopy);
    case UnlockDone(err) => UnlockLate(s.page, err, c);
    case ReadDone(err, data, writeLock) => ReadLate(s, err, data, writeLock, c);
    case WriteDone(err) => WriteLate(s, err);
    case _ =>
  }

  // ----- over whole runs

  /** The errors of which `c` was to be told late, since the page was last evicted. */
  function Owed(evs: seq<Event>, c: Client): seq<int>
    requires Valid(Init, evs)
    decreases |evs|
  {
    if evs == [] then []
    else
      var before, ev := evs[..|evs| - 1], evs[|evs| - 1];
      var s := Exec(Init, before);
      if Forgets(s, ev) then [] else Owed(before, c) + DeferredBy(s, ev, c)
  }

  /** The codes of the error messages among `ms`. */
  function ErrorsIn(ms: seq<Msg>): seq<int>
    decreases |ms|
  {
    if ms == [] then [] else (if ms[0].Error? then [ms[0].code] else []) + ErrorsIn(ms[1..])
  }

  /** What `ev` adds to the messages sent to `c`. */
  function NewMessages(s: Run, ev: Event, c: Client): seq<Msg>
    requires Enabled(s, ev)
  {
    var was, now := Box(s.page, c), Box(Step(s, ev).page, c);
    if |was| <= |now| then now[|was|..] else []
  }

  /** The errors sent to `c` in answer to requests that it made while it was owed one, since the page was last
      evicted. */
  function Told(evs: seq<Event>, c: Client): seq<int>
    requires Valid(Init, evs)
    decreases |evs|
  {
    if evs == [] then []
    else
      var before, ev := evs[..|evs| - 1], evs[|evs| - 1];
      var s := Exec(Init, before);
      if Forgets(s, ev) then []
      else if ev.Request? && ev.client == c && |Told(before, c)| < |Owed(before, c)|
      then Told(before, c) + ErrorsIn(NewMessages(s, ev, c))
      else Told(before, c)
  }

  /** A client for which an error is kept is told of it instead of being queued. */
  lemma NextIsTold(s: Run, c: Client, write: bool)
    requires s.pc.Idle? && Codes(s.page.nextError, c) != []
    ensures var t := Step(s, Request(c, write));
            && t.pc.Idle? && t.page.entry == s.page.entry && t.page.hist.asked == s.page.hist.asked
            && Box(t.page, c) == Box(s.page, c) + [Error(Codes(s.page.nextError, c)[0])]
  {
    FirstCode(s.page.nextError, c, c);
  }

  /** Any other is queued. */
  lemma NextIsQueued(s: Run, c: Client, write: bool)
    requires Orderly(s) && s.pc.Idle? && Codes(s.page.nextError, c) == []
    ensures var t := Step(s, Request(c, write));
            t.pc.Halted? || t.page.hist.asked == s.page.hist.asked + [Waiter(c, write)]
  {
    FirstCode(s.page.nextError, c, c);
    if c in s.page.entry.access && s.page.entry.wait != [] {
      var asked := Enqueue(s.page, c, write);
      ErrorAllEffect(Evict(asked, c), asked.entry.wait);
      RequestLists(s, c, write);
    }
  }

  /** In every run the errors that a client is owed are those it has been told of, in order, and those that are
      kept for it. */
  lemma {:induction false} LateErrorsAreTold(evs: seq<Event>, c: Client)
    requires Valid(Init, evs) && !Exec(Init, evs).pc.Halted?
    ensures Owed(evs, c) == Told(evs, c) + Codes(Exec(Init, evs).page.nextError, c)
    decreases |evs|
  {
    if evs != [] {
      NotHalted(evs);
      LateErrorsAreTold(evs[..|evs| - 1], c);
      LastLate(evs, c);
    }
  }

  lemma LastLate(evs: seq<Event>, c: Client)
    requires evs != [] && Valid(Init, evs) && !Exec(Init, evs).pc.Halted?
    requires var before := evs[..|evs| - 1];
             Owed(before, c) == Told(before, c) + Codes(Exec(Init, before).page.nextError, c)
    ensures Owed(evs, c) == Told(evs, c) + Codes(Exec(Init, evs).page.nextError, c)
  {
    var before, ev := evs[..|evs| - 1], evs[|evs| - 1];
    var s := Exec(Init, before);
    RevocationInProgress(before);
    StepLate(s, ev, c);
    if ev.Request? && ev.client == c && Codes(s.page.nextError, c) != [] {
      OneIsTold(s, c, ev.write);
    }
    Balance(Owed(before, c), Told(before, c), Codes(s.page.nextError, c), DeferredBy(s, ev, c));
  }

  lemma OneIsTold(s: Run, c: Client, write: bool)
    requires s.pc.Idle? && Codes(s.page.nextError, c) != []
    ensures ErrorsIn(NewMessages(s, Request(c, write), c)) == [Codes(s.page.nextError, c)[0]]
  {
    NextIsTold(s, c, write);
    var m := Error(Codes(s.page.nextError, c)[0]);
    assert NewMessages(s, Request(c, write), c) == [m] && [m][1..] == [];
  }

  lemma Balance(owed: seq<int>, told: seq<int>, codes: seq<int>, more: seq<int>)
    requires owed == told + codes
    ensures owed + more == told + (codes + more) && owed + [] == owed
    ensures codes != [] ==> owed == told + [codes[0]] + codes[1..]
  {
  }

  /** So, in every run, a client that is owed an error is told of it when it next asks: of the first of which it
      has not been told. */
  lemma NextRequestIsTold(evs: seq<Event>, c: Client, write: bool)
    requires Valid(Init, evs) && Exec(Init, evs).pc.Idle?
    ensures var s, owed, told := Exec(Init, evs), Owed(evs, c), Told(evs, c);
            var t := Step(s, Request(c, write));
            && |told| <= |owed| && told == owed[..|told|]
            && if |told| < |owed| then && t.pc.Idle? && t.page.entry == s.page.entry
                                       && Box(t.page, c) == Box(s.page, c) + [Error(owed[|told|])]
               else t.pc.Halted? || t.page.hist.asked == s.page.hist.asked + [Waiter(c, write)]
  {
    RevocationInProgress(evs);
    LateErrorsAreTold(evs, c);
    if Codes(Exec(Init, evs).page.nextError, c) != [] {
      NextIsTold(Exec(Init, evs), c, write);
    } else {
      NextIsQueued(Exec(Init, evs), c, write);
    }
  }

  // ----- no error without a failure

  /** No call of the backing store fails. */
  predicate Faultless(ev: Event) {
    ev.ReadDone? || ev.UnlockDone? || ev.WriteDone? ==> ev.err == KERN_SUCCESS
  }

  predicate NoError(ms: seq<Msg>) {
    forall i :: 0 <= i < |ms| ==> !ms[i].Error?
  }

  /** Nothing has gone wrong: the page is valid, and no error is kept for anybody. */
  ghost predicate Sound(pg: Page) {
    !pg.entry.invalid && forall c :: Codes(pg.nextError, c) == []
  }

  lemma {:induction false} SuppliedNoError(ws: seq<Waiter>, c: Client, data: Content, dealloc: bool, readOnly: bool)
    ensures NoError(Supplied(ws, c, data, dealloc, readOnly))
    decreases |ws|
  {
    if ws != [] {
      SuppliedNoError(ws[1..], c, data, dealloc, readOnly);
    }
  }

  lemma ServedNoError(access: set<Client>, ws: seq<Waiter>, data: Content, allowWrite: bool, dealloc: bool, c: Client)
    requires ws != []
    ensures NoError(Served(access, ws, data, allowWrite, dealloc, c))
  {
    SuppliedNoError(ws[..BatchSize(ws, allowWrite)], c, data, dealloc, !(allowWrite && ws[0].write));
  }

  lemma RequestNoError(pg: Page, a: Client, write: bool, c: Client)
    requires Sound(pg)
    ensures NoError(OnRequest(pg, a, write, c))
  {
    FirstCode(pg.nextError, a, a);
  }

  lemma SendsNoError(s: Run, ev: Event, c: Client)
    requires Orderly(s) && Enabled(s, ev) && Faultless(ev) && Sound(s.page)
    ensures NoError(Sends(s, ev, c))
  {
    var e := s.page.entry;
    match ev
    case Request(a, write) => RequestNoError(s.page, a, write, c);
    case Return(a, data, _, _) =>
      if e.wait != [] {
        ServedNoError({}, e.wait, data, true, false, c);
      }
    case ReadDone(err, data, writeLock) => ServedNoError(e.access, e.wait, data, !writeLock, true, c);
    case WriteDone(_) =>
      if e.wait != [] {
        ServedNoError(e.access, e.wait, s.pc.data, true, false, c);
      }
    case _ =>
  }

  lemma SoundStep(s: Run, ev: Event)
    requires Orderly(s) && Enabled(s, ev) && Faultless(ev) && Sound(s.page) && !Step(s, ev).pc.Halted?
    ensures Sound(Step(s, ev).page)
  {
    StepErrors(s, ev);
    forall c ensures Codes(Step(s, ev).page.nextError, c) == [] {
      StepLate(s, ev, c);
    }
  }

  /** As long as no call of the backing store fails, nobody is ever told of an error. */
  lemma {:induction false} NoErrorWithoutFailure(evs: seq<Event>, c: Client)
    requires Valid(Init, evs) && !Exec(Init, evs).pc.Halted? && forall i :: 0 <= i < |evs| ==> Faultless(evs[i])
    ensures Sound(Exec(Init, evs).page) && NoError(Box(Exec(Init, evs).page, c))
    decreases |evs|
  {
    if evs != [] {
      var before, ev := evs[..|evs| - 1], evs[|evs| - 1];
      NotHalted(evs);
      NoErrorWithoutFailure(before, c);
      RevocationInProgress(before);
      SoundStep(Exec(Init, before), ev);
      SendsNoError(Exec(Init, before), ev, c);
      MessagesExactly(Exec(Init, before), ev, c);
    }
  }
}
