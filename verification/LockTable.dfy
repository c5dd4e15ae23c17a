/**
The table of unanswered lock requests (`outstanding_locks` in libpager/pagemap.h): for each range of
pages, how many completions each client still owes.  A thread of the translator that locks a range
synchronously sleeps on the range's record until the record is empty.
*/
module LockTable {
  import PageSpec

  type Client = PageSpec.Client

  /** A range of pages. */
  datatype Range = Range(first: nat, npages: nat)

  type Record = PageSpec.LockRecord

  type Table = map<Range, map<Client, Record>>

  function At(t: Table, r: Range): map<Client, Record> {
    if r in t then t[r] else map[]
  }

  function Owed(t: Table, r: Range, c: Client): nat {
    if c in At(t, r) then At(t, r)[c].count else 0
  }

  /** What happens to the table: a lock request that wants a reply, a reply, a client that goes away. */
  datatype Event =
    | Request(range: Range, client: Client, internal: bool)
    | Reply(range: Range, client: Client)
    | Drop(client: Client)

  function Requested(t: Table, r: Range, c: Client, internal: bool): Table {
    var was := if c in At(t, r) then At(t, r)[c].internal else false;
    t[r := At(t, r)[c := PageSpec.LockRecord(Owed(t, r, c) + 1, internal || was)]]
  }

  /** lock_completed; without an unanswered request it stops on an assertion. */
  function Replied(t: Table, r: Range, c: Client): Table
    requires Owed(t, r, c) > 0
  {
    var left := if t[r][c].count == 1 then t[r] - {c} else t[r][c := t[r][c].(count := t[r][c].count - 1)];
    if left == map[] then t - {r} else t[r := left]
  }

  function Dropped(t: Table, c: Client): Table {
    map r | r in t && t[r] - {c} != map[] :: t[r] - {c}
  }

  predicate Enabled(t: Table, e: Event) {
    match e
    case Request(r, _, internal) => internal ==> r.npages == 1
    case Reply(r, c) => Owed(t, r, c) > 0
    case Drop(_) => true
  }

  function Apply(t: Table, e: Event): Table
    requires Enabled(t, e)
  {
    match e
    case Request(r, c, internal) => Requested(t, r, c, internal)
    case Reply(r, c) => Replied(t, r, c)
    case Drop(c) => Dropped(t, c)
  }

  /** The sleepers on range `r` are notified by `e`. */
  predicate Notifies(t: Table, e: Event, r: Range)
    requires Enabled(t, e)
  {
    r in t && r !in Apply(t, e)
  }

  // ----- histories

  predicate Possible(evs: seq<Event>)
    decreases |evs|, 0
  {
    evs == [] || (Possible(Before(evs)) && Enabled(After(Before(evs)), Last(evs)))
  }

  function After(evs: seq<Event>): Table
    requires Possible(evs)
    decreases |evs|, 1
  {
    if evs == [] then map[] else Apply(After(Before(evs)), Last(evs))
  }

  function Before(evs: seq<Event>): seq<Event>
    requires evs != []
  {
    evs[..|evs| - 1]
  }

  function Last(evs: seq<Event>): Event
    requires evs != []
  {
    evs[|evs| - 1]
  }

  /** Requests sent to `c` for exactly `r` since it was last dropped, less replies received. */
  function Balance(evs: seq<Event>, r: Range, c: Client): int
    decreases |evs|
  {
    if evs == [] then 0
    else
      match Last(evs)
      case Request(r', c', _) => Balance(Before(evs), r, c) + if r == r' && c == c' then 1 else 0
      case Reply(r', c') => Balance(Before(evs), r, c) - if r == r' && c == c' then 1 else 0
      case Drop(c') => if c == c' then 0 else Balance(Before(evs), r, c)
  }

  /** Some client owes a completion for `r`. */
  ghost predicate Unanswered(evs: seq<Event>, r: Range) {
    exists c :: Balance(evs, r, c) > 0
  }

  /** Records exist only while a completion is owed, and internal ones are about single pages. */
  ghost predicate Tidy(t: Table) {
    forall r | r in t :: TidyRow(r, t[r])
  }

  ghost predicate TidyRow(r: Range, row: map<Client, Record>) {
    row != map[] && forall c | c in row :: row[c].count > 0 && (row[c].internal ==> r.npages == 1)
  }

  lemma RequestTidy(t: Table, r: Range, c: Client, internal: bool)
    requires Tidy(t) && (internal ==> r.npages == 1)
    ensures TidyRow(r, Requested(t, r, c, internal)[r])
  {
    var row := Requested(t, r, c, internal)[r];
    assert c in row;
    assert r in t ==> TidyRow(r, t[r]);
  }

  lemma ReplyTidy(t: Table, r: Range, c: Client)
    requires Tidy(t) && Owed(t, r, c) > 0
    ensures var u := Replied(t, r, c); r in u ==> TidyRow(r, u[r])
  {
    assert TidyRow(r, t[r]);
  }

  lemma DropTidy(t: Table, r: Range, c: Client)
    requires Tidy(t)
    ensures var u := Dropped(t, c); r in u ==> TidyRow(r, u[r])
  {
    assert r in t ==> TidyRow(r, t[r]);
  }

  lemma ApplyTidy(t: Table, e: Event)
    requires Tidy(t) && Enabled(t, e)
    ensures Tidy(Apply(t, e))
  {
    var u: Table := Apply(t, e);
    forall r: Range | r in u ensures TidyRow(r, u[r]) {
      assert r in t ==> TidyRow(r, t[r]);
      match e
      case Request(r', c, internal) => RequestTidy(t, r', c, internal);
      case Reply(r', c) => ReplyTidy(t, r', c);
      case Drop(c) => DropTidy(t, r, c);
    }
  }

  lemma ApplyOwed(t: Table, e: Event, r: Range, c: Client)
    requires Tidy(t) && Enabled(t, e)
    ensures Owed(Apply(t, e), r, c) ==
            match e
            case Request(r', c', _) => Owed(t, r, c) + (if r == r' && c == c' then 1 else 0)
            case Reply(r', c') => Owed(t, r, c) - (if r == r' && c == c' then 1 else 0)
            case Drop(c') => if c == c' then 0 else Owed(t, r, c)
  {
    if e.Drop? && r in t {
      assert c != e.client && c in t[r] ==> c in t[r] - {e.client};
    }
    if e.Reply? && r == e.range {
      var left := if t[r][e.client].count == 1 then t[r] - {e.client}
                  else t[r][e.client := t[r][e.client].(count := t[r][e.client].count - 1)];
      assert c in t[r] && c != e.client ==> c in left;
      assert e.client != c || t[r][c].count == 1 || c in left;
    }
  }

  /** Over every history the table records exactly the completions owed: the count of each client is
      requests less replies, and a record exists if and only if somebody owes one. */
  lemma {:induction false} LockAccounting(evs: seq<Event>)
    requires Possible(evs)
    ensures Tidy(After(evs))
    ensures forall r, c :: Owed(After(evs), r, c) == Balance(evs, r, c)
    ensures forall r :: r in After(evs) <==> Unanswered(evs, r)
    decreases |evs|
  {
    var t := After(evs);
    if evs != [] {
      LockAccounting(Before(evs));
      ApplyTidy(After(Before(evs)), Last(evs));
      forall r, c ensures Owed(t, r, c) == Balance(evs, r, c) {
        ApplyOwed(After(Before(evs)), Last(evs), r, c);
      }
    }
    forall r ensures r in t <==> Unanswered(evs, r) {
      if r in t {
        assert t[r].Keys != {};
        var c :| c in t[r];
        assert Owed(t, r, c) == Balance(evs, r, c) > 0;
      } else {
        forall c ensures Balance(evs, r, c) <= 0 {
          assert Owed(t, r, c) == Balance(evs, r, c);
        }
      }
    }
  }

  /** One of the requests for exactly `r` that `c` was sent since it last owed nothing was the pager's own. */
  predicate AskedInternally(evs: seq<Event>, r: Range, c: Client)
    decreases |evs|
  {
    evs != [] &&
    match Last(evs)
    case Request(r', c', internal) => AskedInternally(Before(evs), r, c) || (r == r' && c == c' && internal)
    case Reply(r', c') => AskedInternally(Before(evs), r, c) && !(r == r' && c == c' && Balance(Before(evs), r, c) == 1)
    case Drop(c') => c != c' && AskedInternally(Before(evs), r, c)
  }

  predicate Internal(t: Table, r: Range, c: Client) {
    c in At(t, r) && At(t, r)[c].internal
  }

  lemma ApplyInternal(t: Table, e: Event, r: Range, c: Client)
    requires Tidy(t) && Enabled(t, e)
    ensures Internal(Apply(t, e), r, c) <==>
            match e
            case Request(r', c', internal) => Internal(t, r, c) || (r == r' && c == c' && internal)
            case Reply(r', c') => Internal(t, r, c) && !(r == r' && c == c' && Owed(t, r, c) == 1)
            case Drop(c') => c != c' && Internal(t, r, c)
  {
    if e.Drop? && r in t {
      assert c != e.client && c in t[r] ==> c in t[r] - {e.client};
    }
    if e.Reply? && r == e.range {
      var left := if t[r][e.client].count == 1 then t[r] - {e.client}
                  else t[r][e.client := t[r][e.client].(count := t[r][e.client].count - 1)];
      assert c in t[r] && c != e.client ==> c in left;
      assert e.client != c || t[r][c].count == 1 || c in left;
    }
  }

  /** A record remembers that one of its requests was the pager's own, until the last of them is answered. */
  lemma {:induction false} InternalIsRemembered(evs: seq<Event>, r: Range, c: Client)
    requires Possible(evs)
    ensures Internal(After(evs), r, c) <==> AskedInternally(evs, r, c)
    decreases |evs|
  {
    if evs != [] {
      InternalIsRemembered(Before(evs), r, c);
      LockAccounting(Before(evs));
      ApplyInternal(After(Before(evs)), Last(evs), r, c);
    }
  }

  /** Sleepers on a range are notified exactly by the event after which no client owes a completion
      for it, while some client did before. */
  lemma NotifiedWhenAnswered(evs: seq<Event>, e: Event, r: Range)
    requires Possible(evs) && Enabled(After(evs), e)
    ensures Notifies(After(evs), e, r) <==> Unanswered(evs, r) && !Unanswered(evs + [e], r)
  {
    var all := evs + [e];
    assert Before(all) == evs && Last(all) == e;
    LockAccounting(evs);
    LockAccounting(all);
  }
}
