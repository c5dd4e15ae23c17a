/**
The pagemap of libpager/pagemap.h: an array of pointers into a shared ordered set of page data, in
which equal data is stored once.  The set is kept in the order of `pagemap_entry_data::operator<`.
*/
module Intern {
  import opened PageSpec

  // ----- the order

  /** Lexicographic order, as of std::set and std::vector. */
  predicate RowLess(a: seq<int>, b: seq<int>) {
    if b == [] then false
    else if a == [] then true
    else a[0] < b[0] || (!(b[0] < a[0]) && RowLess(a[1..], b[1..]))
  }

  /** The same one level up, as of std::tie for rows of the same length. */
  predicate KeyLess(a: seq<seq<int>>, b: seq<seq<int>>) {
    if b == [] then false
    else if a == [] then true
    else RowLess(a[0], b[0]) || (!RowLess(b[0], a[0]) && KeyLess(a[1..], b[1..]))
  }

  lemma {:induction false} RowTotal(a: seq<int>, b: seq<int>)
    ensures !(RowLess(a, b) && RowLess(b, a)) && (!RowLess(a, b) && !RowLess(b, a) <==> a == b)
  {
    if a != [] && b != [] {
      RowTotal(a[1..], b[1..]);
      assert a == [a[0]] + a[1..] && b == [b[0]] + b[1..];
    }
  }

  lemma {:induction false} RowTransitive(a: seq<int>, b: seq<int>, c: seq<int>)
    requires RowLess(a, b) && RowLess(b, c)
    ensures RowLess(a, c)
  {
    if a != [] && !(a[0] < c[0]) {
      RowTransitive(a[1..], b[1..], c[1..]);
    }
  }

  lemma {:induction false} KeyTotal(a: seq<seq<int>>, b: seq<seq<int>>)
    ensures !(KeyLess(a, b) && KeyLess(b, a)) && (!KeyLess(a, b) && !KeyLess(b, a) <==> a == b)
  {
    if a != [] && b != [] {
      KeyTotal(a[1..], b[1..]);
      RowTotal(a[0], b[0]);
      assert a == [a[0]] + a[1..] && b == [b[0]] + b[1..];
    }
  }

  lemma {:induction false} KeyTransitive(a: seq<seq<int>>, b: seq<seq<int>>, c: seq<seq<int>>)
    requires KeyLess(a, b) && KeyLess(b, c)
    ensures KeyLess(a, c)
  {
    if a != [] {
      RowTotal(a[0], b[0]);
      RowTotal(b[0], c[0]);
      RowTotal(a[0], c[0]);
      if RowLess(a[0], b[0]) && RowLess(b[0], c[0]) {
        RowTransitive(a[0], b[0], c[0]);
      } else if !RowLess(a[0], b[0]) && !RowLess(b[0], c[0]) {
        KeyTransitive(a[1..], b[1..], c[1..]);
      }
    }
  }

  // ----- the key of an entry

  lemma {:induction false} HasLeast(s: set<nat>) returns (m: nat)
    requires s != {}
    ensures m in s && forall x :: x in s ==> m <= x
    decreases s
  {
    m :| m in s;
    if s - {m} != {} {
      var k := HasLeast(s - {m});
      assert forall x :: x in s ==> x == m || x in s - {m};
      m := if k < m then k else m;
    } else {
      assert s == {m};
    }
  }

  /** The elements of a set in ascending order, as std::set iterates over them. */
  function Ascending(s: set<nat>): (r: seq<int>)
    ensures forall x: nat :: x in s <==> x in r
    ensures forall i :: 0 <= i < |r| ==> r[i] >= 0
    decreases s
  {
    if s == {} then []
    else
      assert exists m :: m in s && forall x :: x in s ==> m <= x by { var m := HasLeast(s); }
      var m :| m in s && forall x :: x in s ==> m <= x;
      assert s == {m} + (s - {m});
      [m] + Ascending(s - {m})
  }

  lemma {:induction false} AscendingIsSorted(s: set<nat>)
    ensures forall i, j :: 0 <= i < j < |Ascending(s)| ==> Ascending(s)[i] < Ascending(s)[j]
    decreases s
  {
    if s != {} {
      var r := Ascending(s);
      var m: nat := r[0];
      AscendingIsSorted(s - {m});
      forall j | 1 <= j < |r| ensures m < r[j] {
        var x: nat := r[j];
        assert x == Ascending(s - {m})[j - 1] && x in Ascending(s - {m});
        assert x in s - {m};
      }
    }
  }

  function Flat(ws: seq<Waiter>): seq<int> {
    if ws == [] then [] else [ws[0].client, if ws[0].write then 1 else 0] + Flat(ws[1..])
  }

  function Key(e: Entry): seq<seq<int>> {
    [Ascending(e.access), Flat(e.wait), [Bit(e.pagingOut)], [Bit(e.writeGranted)], [Bit(e.invalid)], [e.error]]
  }

  function Bit(b: bool): int {
    if b then 1 else 0
  }

  lemma {:induction false} FlatInjective(a: seq<Waiter>, b: seq<Waiter>)
    requires Flat(a) == Flat(b)
    ensures a == b
  {
    if a != [] && b != [] {
      assert Flat(a)[0] == Flat(b)[0] && Flat(a)[1] == Flat(b)[1];
      assert Flat(a[1..]) == Flat(a)[2..] == Flat(b)[2..] == Flat(b[1..]);
      FlatInjective(a[1..], b[1..]);
      assert a == [a[0]] + a[1..] && b == [b[0]] + b[1..];
    }
  }

  lemma KeyInjective(a: Entry, b: Entry)
    requires Key(a) == Key(b)
    ensures a == b
  {
    assert Key(a)[0] == Key(b)[0] && Key(a)[1] == Key(b)[1] && Key(a)[2] == Key(b)[2];
    assert Key(a)[3] == Key(b)[3] && Key(a)[4] == Key(b)[4] && Key(a)[5] == Key(b)[5];
    FlatInjective(a.wait, b.wait);
    assert forall x: nat :: x in a.access <==> x in b.access;
    assert a.access == b.access;
  }

  /** pagemap_entry_data::operator<. */
  predicate Less(a: Entry, b: Entry) {
    KeyLess(Key(a), Key(b))
  }

  /** operator< is a strict total order: of two entries exactly one is less, or they are equal. */
  lemma LessIsTotal(a: Entry, b: Entry)
    ensures !(Less(a, b) && Less(b, a))
    ensures !Less(a, b) && !Less(b, a) <==> a == b
  {
    KeyTotal(Key(a), Key(b));
    if Key(a) == Key(b) {
      KeyInjective(a, b);
    }
  }

  lemma LessIsTransitive(a: Entry, b: Entry, c: Entry)
    requires Less(a, b) && Less(b, c)
    ensures Less(a, c)
  {
    KeyTransitive(Key(a), Key(b), Key(c));
  }

  // ----- the pagemap

  class Pagemap {
    /** The nodes of pagemap_set, which are never freed: a pointer is an index. */
    var nodes: seq<Entry>
    /** The nodes in the order of operator<. */
    var order: seq<nat>
    /** The vector of pointers. */
    var entries: seq<nat>

    ghost predicate Valid()
      reads this
    {
      && 0 < |nodes| && nodes[0] == EmptyEntry
      && (forall i :: 0 <= i < |order| ==> order[i] < |nodes|)
      && (forall n :: 0 <= n < |nodes| ==> n in order)
      && (forall i, j :: 0 <= i < j < |order| ==> Less(nodes[order[i]], nodes[order[j]]))
      && (forall i :: 0 <= i < |entries| ==> entries[i] < |nodes|)
    }

    /** What page `n` holds: a total map from pages to data. */
    ghost function Data(n: nat): Entry
      reads this
      requires Valid()
    {
      if n < |entries| then nodes[entries[n]] else EmptyEntry
    }

    constructor ()
      ensures Valid() && forall n: nat :: Data(n) == EmptyEntry
    {
      nodes, order, entries := [EmptyEntry], [0], [];
    }

    /** pagemap_vector::operator[]: the vector grows to hold page `n`. */
    method Reach(n: nat)
      requires Valid()
      modifies this`entries
      ensures Valid() && n < |entries|
      ensures forall m: nat :: Data(m) == old(Data(m))
    {
      if n >= |entries| {
        entries := entries + seq(n + 1 - |entries|, _ => 0);
      }
    }
  
    /** Where `data` belongs in the order. */
    method LowerBound(data: Entry) returns (k: nat)
      requires Valid()
      ensures k <= |order|
      ensures forall i :: 0 <= i < k ==> Less(nodes[order[i]], data)
      ensures forall i :: k <= i < |order| ==> !Less(nodes[order[i]], data)
    {
      var lo, hi := 0, |order|;
      while lo < hi
        invariant 0 <= lo <= hi <= |order|
        invariant forall i :: 0 <= i < lo ==> Less(nodes[order[i]], data)
        invariant forall i :: hi <= i < |order| ==> !Less(nodes[order[i]], data)
      {
        var mid := (lo + hi) / 2;
        SortedAround(mid, data);
        if Less(nodes[order[mid]], data) {
          lo := mid + 1;
        } else {
          hi := mid;
        }
      }
      k := lo;
    }

    lemma SortedAround(mid: nat, data: Entry)
      requires Valid() && mid < |order|
      ensures Less(nodes[order[mid]], data) ==> forall i :: 0 <= i <= mid ==> Less(nodes[order[i]], data)
      ensures !Less(nodes[order[mid]], data) ==> forall i :: mid <= i < |order| ==> !Less(nodes[order[i]], data)
    {
      forall i | 0 <= i < mid && Less(nodes[order[mid]], data) ensures Less(nodes[order[i]], data) {
        LessIsTransitive(nodes[order[i]], nodes[order[mid]], data);
      }
      forall i | mid < i < |order| && Less(nodes[order[i]], data) ensures Less(nodes[order[mid]], data) {
        LessIsTransitive(nodes[order[mid]], nodes[order[i]], data);
      }
    }

    /** std::set::insert: the node with this data, which is made if there is none. */
    method Insert(data: Entry) returns (p: nat, made: bool)
      requires Valid()
      modifies this`nodes, this`order
      ensures Valid() && p < |nodes| && nodes[p] == data
      ensures made == (data !in old(nodes))
      ensures nodes == if made then old(nodes) + [data] else old(nodes)
    {
      var k := LowerBound(data);
      if k < |order| && !Less(data, nodes[order[k]]) {
        LessIsTotal(data, nodes[order[k]]);
        return order[k], false;
      }
      NotThere(k, data);
      p, made := |nodes|, true;
      nodes := nodes + [data];
      order := With(order, k, p);
      forall i, j | 0 <= i < j < |order| ensures Less(nodes[order[i]], nodes[order[j]]) {
        StillSorted(old(nodes), old(order), data, k, i, j);
      }
      forall n | 0 <= n < |nodes| ensures n in order {
        StillThere(old(order), k, p, n);
      }
    }

    lemma NotThere(k: nat, data: Entry)
      requires Valid() && k <= |order|
      requires forall i :: 0 <= i < k ==> Less(nodes[order[i]], data)
      requires forall i :: k <= i < |order| ==> !Less(nodes[order[i]], data)
      requires k < |order| ==> Less(data, nodes[order[k]])
      ensures data !in nodes
      ensures forall i :: k <= i < |order| ==> Less(data, nodes[order[i]])
    {
      forall i | k <= i < |order| ensures Less(data, nodes[order[i]]) {
        if i > k {
          LessIsTransitive(data, nodes[order[k]], nodes[order[i]]);
        }
      }
      forall n | 0 <= n < |nodes| ensures nodes[n] != data {
        assert n in order;
        var i :| 0 <= i < |order| && order[i] == n;
        LessIsTotal(data, data);
      }
    }

    /** Page `n` is made to hold `tmp`, which is moved from: if it went into the set it is left with an
        unspecified value. */
    method Assign(n: nat, tmp: Entry) returns (left: Entry)
      requires Valid()
      modifies this
      ensures Valid() && Data(n) == tmp && forall m: nat :: m != n ==> Data(m) == old(Data(m))
      ensures forall i, j :: 0 <= i < |entries| && 0 <= j < |entries| ==>
        (entries[i] == entries[j] <==> Data(i) == Data(j))
    {
      Reach(n);
      var p, made := Insert(tmp);
      entries := entries[n := p];
      left := tmp;
      if made {
        left := *;
      }
      NodesDiffer();
    }

    lemma NodesDiffer()
      requires Valid()
      ensures forall a, b :: 0 <= a < |nodes| && 0 <= b < |nodes| && a != b ==> nodes[a] != nodes[b]
    {
      forall a, b | 0 <= a < |nodes| && 0 <= b < |nodes| && a != b ensures nodes[a] != nodes[b] {
        assert a in order;
        var i :| 0 <= i < |order| && order[i] == a;
        assert b in order;
        var j :| 0 <= j < |order| && order[j] == b;
        LessIsTotal(nodes[a], nodes[b]);
      }
    }
  }

  /** The order with one more pointer at `k`. */
  function With(order: seq<nat>, k: nat, p: nat): (r: seq<nat>)
    requires k <= |order|
    ensures |r| == |order| + 1 && r[k] == p
    ensures forall i :: 0 <= i < k ==> r[i] == order[i]
    ensures forall i :: k <= i < |order| ==> r[i + 1] == order[i]
    ensures forall i :: k < i < |r| ==> r[i] == order[i - 1]
  {
    order[..k] + [p] + order[k..]
  }

  lemma StillSorted(nodes: seq<Entry>, order: seq<nat>, data: Entry, k: nat, i: nat, j: nat)
    requires k <= |order| && (forall i :: 0 <= i < |order| ==> order[i] < |nodes|)
    requires forall i, j :: 0 <= i < j < |order| ==> Less(nodes[order[i]], nodes[order[j]])
    requires forall i :: 0 <= i < k ==> Less(nodes[order[i]], data)
    requires forall i :: k <= i < |order| ==> Less(data, nodes[order[i]])
    requires i < j <= |order|
    ensures var nodes', order' := nodes + [data], With(order, k, |nodes|);
            order'[i] < |nodes'| && order'[j] < |nodes'| && Less(nodes'[order'[i]], nodes'[order'[j]])
  {
    var order' := With(order, k, |nodes|);
    assert order'[i] == if i < k then order[i] else if i == k then |nodes| else order[i - 1];
    assert order'[j] == if j < k then order[j] else if j == k then |nodes| else order[j - 1];
  }

  lemma StillThere(order: seq<nat>, k: nat, p: nat, n: nat)
    requires k <= |order| && (n in order || n == p)
    ensures n in With(order, k, p)
  {
    if n in order {
      var i :| 0 <= i < |order| && order[i] == n;
      assert With(order, k, p)[if i < k then i else i + 1] == n;
    } else {
      assert With(order, k, p)[k] == n;
    }
  }
}
