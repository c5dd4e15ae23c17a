/**
pager_memcpy (libpager/pager-memcpy.c): copying between a memory object and a task's memory through
windows mapped onto the object, by vm_copy where whole pages line up and by memcpy elsewhere.
*/
module MemCopy {
  import opened Bytes

  /** One window: `size` bytes of the object from `first` on are mapped, and `count` of them, from
      `skip` on, are copied from or to `at` in memory. */
  datatype Window = Window(whole: bool, first: nat, size: nat, skip: nat, at: nat, count: nat)

  /** The window is made of whole pages, and a vm_copy is of whole pages on both sides, at least eight. */
  predicate Proper(w: Window, page: nat)
    requires page > 0
  {
    && Offset(w.first, page) == 0 && Offset(w.size, page) == 0 && w.skip < page && 0 < w.count <= w.size - w.skip
    && w.size <= 32 * page && w.size < w.skip + w.count + page
    && (w.whole ==> w.skip == 0 && w.count == w.size && Offset(w.at, page) == 0 && w.size >= 8 * page)
  }

  /** The windows cover `count` bytes from `from` in the object and `to` in memory: each once, in order. */
  predicate Tiles(ws: seq<Window>, page: nat, from: nat, to: nat, count: nat)
    requires page > 0
    decreases |ws|
  {
    if ws == [] then count == 0
    else
      var w := ws[|ws| - 1];
      && Proper(w, page) && w.count <= count
      && w.first + w.skip == from + count - w.count && w.at == to + count - w.count
      && Tiles(ws[..|ws| - 1], page, from, to, count - w.count)
  }

  /** How many calls of vm_map and vm_copy the windows take. */
  function Needed(ws: seq<Window>): nat
    decreases |ws|
  {
    if ws == [] then 0 else Needed(ws[..|ws| - 1]) + if ws[|ws| - 1].whole then 2 else 1
  }

  /** How many bytes are copied by memcpy. */
  function Plain(ws: seq<Window>): nat
    decreases |ws|
  {
    if ws == [] then 0 else Plain(ws[..|ws| - 1]) + if ws[|ws| - 1].whole then 0 else ws[|ws| - 1].count
  }

  /** What comes before the first whole page. */
  function Lead(x: nat, page: nat): nat
    requires page > 0
  {
    if Offset(x, page) == 0 then 0 else page - Offset(x, page)
  }

  /** vm_copy can be used: pages of the object and of memory line up, and there are at least eight of them. */
  predicate Fast(from: nat, to: nat, size: nat, page: nat)
    requires page > 0
  {
    Offset(from, page) == Offset(to, page) && size >= Lead(to, page) + 8 * page
  }

  // ----- page arithmetic

  /** Where in its page `x` lies: x & (page - 1). */
  function Offset(x: nat, page: nat): (r: nat)
    requires page > 0
    ensures r < page && r <= x
  {
    if x < page then x else Offset(x - page, page)
  }

  lemma {:induction false} OffsetIsRemainder(x: nat, page: nat)
    requires page > 0
    ensures Offset(x, page) == x % page
  {
    if x >= page {
      OffsetIsRemainder(x - page, page);
      LessAPage(x, page);
    }
  }

  lemma LessAPage(x: nat, page: nat)
    requires x >= page > 0
    ensures (x - page) % page == x % page
  {
    var d := x / page - (x - page) / page - 1;
    assert x == x / page * page + x % page && x - page == (x - page) / page * page + (x - page) % page;
    assert d * page == (x - page) % page - x % page;
    assert 0 - page < d * page < page;
    assert d == 0;
  }

  lemma {:induction false} Multiple(k: nat, page: nat)
    requires page > 0
    ensures Offset(k * page, page) == 0
  {
    if k > 0 {
      assert k * page == (k - 1) * page + page;
      assert (k - 1) * page >= 0;
      Multiple(k - 1, page);
    }
  }

  /** Adding whole pages does not change the offset in a page. */
  lemma {:induction false} AddWhole(x: nat, y: nat, page: nat)
    requires page > 0 && Offset(y, page) == 0
    ensures Offset(x + y, page) == Offset(x, page)
    decreases y
  {
    if y >= page {
      AddWhole(x, y - page, page);
    }
  }

  lemma {:induction false} DropOffset(x: nat, page: nat)
    requires page > 0
    ensures Offset(x - Offset(x, page), page) == 0 && Offset(x + (page - Offset(x, page)), page) == 0
  {
    if x >= page {
      DropOffset(x - page, page);
    }
  }

  /** Two whole numbers of pages differ by nothing or by a page. */
  lemma {:induction false} Gap(a: nat, b: nat, page: nat)
    requires page > 0 && Offset(a, page) == 0 && Offset(b, page) == 0 && a < b + page
    ensures a <= b
  {
    if a >= page && b >= page {
      Gap(a - page, b - page, page);
    }
  }

  function RoundPage(x: nat, page: nat): (r: nat)
    requires page > 0
    ensures Offset(r, page) == 0 && x <= r < x + page
  {
    DropOffset(x + page - 1, page);
    x + page - 1 - Offset(x + page - 1, page)
  }

  lemma EightPages(n: nat, page: nat)
    requires page > 0 && n >= 8 * page
    ensures n - Offset(n, page) >= 8 * page
  {
    Multiple(8, page);
    DropOffset(n, page);
    Gap(8 * page, n - Offset(n, page), page);
  }

  class Copier {
    const page: nat          // vm_page_size
    const from: nat          // where the copy starts in the object
    const to: nat            // and in memory
    const size: nat          // how much is to be copied
    /** What the kernel answers to the successive calls of vm_map and vm_copy; 0 is success. */
    const answer: nat -> int

    var offset: nat
    var other: nat
    var n: nat               // how much is left
    var calls: nat
    var windows: seq<Window>

    constructor (page: nat, from: nat, to: nat, size: nat, answer: nat -> int)
      requires page > 0
      ensures Valid() && n == size && this.size == size && this.page == page && this.from == from && this.to == to
      ensures this.answer == answer && calls == 0 && Counted(0) && windows == []
    {
      this.page, this.from, this.to, this.size, this.answer := page, from, to, size, answer;
      offset, other, n, calls, windows := from, to, size, 0, [];
    }

    /** The copies made so far tile what is done. */
    ghost predicate Valid()
      reads this
    {
      && page > 0 && n <= size && offset == from + (size - n) && other == to + (size - n)
      && Tiles(windows, page, from, to, size - n)
    }

    /** `err` is what the kernel said in the calls from `first` to `end`: the answer of the last one, if that
        failed, and success if all did. */
    ghost predicate Reports(err: int, first: nat, end: nat) {
      && first <= end
      && (err == 0 <==> forall k :: first <= k < end ==> answer(k) == 0)
      && (err != 0 ==> first < end && err == answer(end - 1) && forall k :: first <= k < end - 1 ==> answer(k) == 0)
    }

    /** Every window took its calls; a failure is of the window after them, which was not copied through. */
    ghost predicate Counted(err: int)
      reads this
    {
      if err == 0 then calls == Needed(windows) else n > 0 && Needed(windows) < calls <= Needed(windows) + 2
    }

    method Ask() returns (err: int)
      requires Valid()
      modifies this`calls
      ensures Valid() && calls == old(calls) + 1 && Reports(err, old(calls), calls)
    {
      err := answer(calls);
      calls := calls + 1;
    }

    /** vm_map and, if that succeeds, vm_copy. */
    method AskTwice() returns (err: int)
      requires Valid()
      modifies this`calls
      ensures Valid() && old(calls) < calls <= old(calls) + 2 && Reports(err, old(calls), calls)
      ensures err == 0 ==> calls == old(calls) + 2
    {
      err := Ask();
      if err == 0 {
        err := Ask();
      }
    }

    /** The copy through one window, once it is mapped. */
    method CopyThrough(w: Window)
      requires Valid() && Proper(w, page) && w.count <= n && w.first + w.skip == offset && w.at == other
      modifies this`offset, this`other, this`n, this`windows
      ensures Valid() && n == old(n) - w.count && offset == old(offset) + w.count && other == old(other) + w.count
      ensures Needed(windows) == old(Needed(windows)) + if w.whole then 2 else 1
      ensures Plain(windows) == old(Plain(windows)) + if w.whole then 0 else w.count
    {
      OneMoreTile(windows, w, page, from, to, size - n);
      assert (windows + [w])[..|windows|] == windows;
      windows := windows + [w];
      offset, other, n := offset + w.count, other + w.count, n - w.count;
    }

    /** One round of do_vm_copy's loop, with the window it computes. */
    method VmCopyRound() returns (err: int)
      requires Valid() && n >= 8 * page && Offset(offset, page) == 0 && Offset(other, page) == 0 && Counted(0)
      modifies this
      ensures Valid() && (err == 0 ==> n < old(n) && Offset(offset, page) == 0 && Offset(other, page) == 0)
      ensures Plain(windows) == old(Plain(windows))
      ensures Reports(err, old(calls), calls) && Counted(err)
    {
      var windowSize := if 32 * page > n then n - Offset(n, page) else 32 * page;
      VmWindowFits(n, windowSize, page);
      assert windowSize >= 8 * page;
      assert Offset(windowSize, page) == 0;
      err := AskTwice();
      if err != 0 {
        return;
      }
      CopyPages(windowSize);
    }

    /** vm_copy through a window of whole pages. */
    method CopyPages(windowSize: nat)
      requires Valid() && Offset(offset, page) == 0 && Offset(other, page) == 0 && windowSize <= n
      requires Offset(windowSize, page) == 0 && 0 < 8 * page <= windowSize <= 32 * page
      modifies this`offset, this`other, this`n, this`windows
      ensures Valid() && n == old(n) - windowSize && Offset(offset, page) == 0 && Offset(other, page) == 0
      ensures Needed(windows) == old(Needed(windows)) + 2 && Plain(windows) == old(Plain(windows))
    {
      AddWhole(offset, windowSize, page);
      AddWhole(other, windowSize, page);
      CopyThrough(Window(true, offset, windowSize, 0, other, windowSize));
    }

    /** do_vm_copy. */
    method VmCopy() returns (err: int)
      requires Valid() && n >= 8 * page && Offset(offset, page) == 0 && Offset(other, page) == 0 && Counted(0)
      modifies this
      ensures Valid() && (err == 0 ==> n < 8 * page) && Plain(windows) == old(Plain(windows))
      ensures Reports(err, old(calls), calls) && Counted(err)
    {
      err := 0;
      while n >= 8 * page
        invariant Valid() && Offset(offset, page) == 0 && Offset(other, page) == 0 && err == 0
        invariant Reports(0, old(calls), calls) && Counted(0) && Plain(windows) == old(Plain(windows))
        decreases n
      {
        err := VmCopyRound();
        if err != 0 {
          return;
        }
      }
    }

    /** One round of do_memcpy's loop, with the window it computes. */
    method MemcpyRound(toCopy: nat, windowSize: nat) returns (err: int, copyCount: nat, newSize: nat)
      requires Valid() && 0 < toCopy <= n && windowSize == 32 * page && Counted(0)
      modifies this
      ensures Valid() && 0 < copyCount <= toCopy && (copyCount < toCopy ==> newSize == windowSize)
      ensures err == 0 ==>
          n == old(n) - copyCount && offset == old(offset) + copyCount && other == old(other) + copyCount
      ensures err == 0 ==> Plain(windows) == old(Plain(windows)) + copyCount
      ensures Reports(err, old(calls), calls) && Counted(err)
    {
      var pageoff := Offset(offset, page);
      MemcpyWindowFits(offset, toCopy, page);
      copyCount, newSize := windowSize - pageoff, windowSize;
      if windowSize >= RoundPage(pageoff + toCopy, page) {
        copyCount := toCopy;
        newSize := RoundPage(pageoff + toCopy, page);
      }
      err := Ask();
      if err != 0 {
        return;
      }
      CopyThrough(Window(false, offset - pageoff, newSize, pageoff, other, copyCount));
    }

    /** do_memcpy. */
    method Memcpy(count: nat) returns (err: int)
      requires Valid() && 0 < count <= n && Counted(0)
      modifies this
      ensures Valid() && (err == 0 ==> n == old(n) - count && Plain(windows) == old(Plain(windows)) + count)
      ensures err == 0 ==> offset == old(offset) + count && other == old(other) + count
      ensures Reports(err, old(calls), calls) && Counted(err)
    {
      var windowSize, toCopy := 32 * page, count;
      while toCopy > 0
        invariant Valid() && 0 <= toCopy <= n && n - toCopy == old(n) - count
        invariant toCopy > 0 ==> windowSize == 32 * page
        invariant Reports(0, old(calls), calls) && Counted(0)
        invariant Plain(windows) == old(Plain(windows)) + (count - toCopy)
        invariant offset == old(offset) + (count - toCopy) && other == old(other) + (count - toCopy)
        decreases toCopy
      {
        var copyCount;
        err, copyCount, windowSize := MemcpyRound(toCopy, windowSize);
        if err != 0 {
          return;
        }
        toCopy := toCopy - copyCount;
      }
      err := 0;
    }

    /** do_copy. */
    method Copy() returns (err: int)
      requires Valid() && n > 0 && Counted(0)
      modifies this
      ensures Valid() && (err == 0 ==> n == 0)
      ensures err == 0 ==>
          var lead, more := page - Offset(old(other), page), Plain(windows) - old(Plain(windows));
          if Offset(old(other), page) == Offset(old(offset), page) && old(n) >= lead + 8 * page
          then lead <= more < lead + 8 * page else more == old(n)
      ensures Reports(err, old(calls), calls) && Counted(err)
    {
      if Offset(other, page) == Offset(offset, page) && n >= 8 * page + page - Offset(other, page) {
        err := CopyAligned();
        if err != 0 || n == 0 {
          return;
        }
        assert n < 8 * page;
      }
      err := Memcpy(n);
    }

    /** Up to the first whole page by memcpy, and then whole pages. */
    method CopyAligned() returns (err: int)
      requires Valid() && Offset(other, page) == Offset(offset, page) && Counted(0)
      requires n >= 8 * page + page - Offset(other, page)
      modifies this
      ensures Valid() && (err == 0 ==> n < 8 * page)
      ensures err == 0 ==> Plain(windows) == old(Plain(windows)) + page - Offset(old(other), page)
      ensures Reports(err, old(calls), calls) && Counted(err)
    {
      DropOffset(other, page);
      DropOffset(offset, page);
      err := Memcpy(page - Offset(other, page));
      if err != 0 {
        return;
      }
      assert n >= 8 * page;
      err := VmCopy();
    }

    /** pager_memcpy, short of a fault: `copied` is what *SIZE is left at. */
    method PagerMemcpy() returns (err: int, copied: nat)
      requires Valid() && n == size && Counted(0) && windows == []
      modifies this
      ensures Valid() && copied == size - n
      ensures err == 0 <==> copied == size
      ensures Reports(err, old(calls), calls) && Counted(err)
      ensures (forall k :: answer(k) == 0) ==> err == 0 && copied == size
      ensures err == 0 ==>
          if Fast(from, to, size, page) then Lead(to, page) <= Plain(windows) < Lead(to, page) + 8 * page
          else Plain(windows) == size
    {
      err := 0;
      if n == 0 {
        return 0, size;
      }
      if Offset(other, page) == 0 && Offset(offset, page) == 0 && n >= 8 * page {
        err := VmCopy();
        if err != 0 || n == 0 {
          return err, size - n;
        }
        assert n < 8 * page;
      }
      err := Copy();
      if err == 0 {
        assert n == 0;
      }
      copied := size - n;
    }
  }

  lemma OneMoreTile(ws: seq<Window>, w: Window, page: nat, from: nat, to: nat, count: nat)
    requires page > 0 && Tiles(ws, page, from, to, count) && Proper(w, page)
    requires w.first + w.skip == from + count && w.at == to + count
    ensures Tiles(ws + [w], page, from, to, count + w.count)
  {
    assert (ws + [w])[..|ws|] == ws;
  }

  /** do_vm_copy's window is eight to 32 whole pages. */
  lemma VmWindowFits(n: nat, windowSize: nat, page: nat)
    requires page > 0 && n >= 8 * page && windowSize == if 32 * page > n then n - Offset(n, page) else 32 * page
    ensures Offset(windowSize, page) == 0 && 8 * page <= windowSize <= 32 * page && windowSize <= n
  {
    DropOffset(n, page);
    Multiple(32, page);
    EightPages(n, page);
  }

  /** do_memcpy's window, of 32 pages or of as many as hold the rest. */
  lemma MemcpyWindowFits(offset: nat, toCopy: nat, page: nat)
    requires page > 0 && toCopy > 0
    ensures Offset(offset, page) <= offset && Offset(offset - Offset(offset, page), page) == 0 &&
      Offset(32 * page, page) == 0 && Offset(offset, page) < 32 * page
    ensures 32 * page < RoundPage(Offset(offset, page) + toCopy, page) ==> 32 * page - Offset(offset, page) < toCopy
  {
    DropOffset(offset, page);
    Multiple(32, page);
    if Offset(offset, page) + toCopy <= 32 * page {
      Gap(RoundPage(Offset(offset, page) + toCopy, page), 32 * page, page);
    }
  }

  // ----- what the copies do

  /** `dst` with the first `count` bytes of the part at `from` of `src` copied to `at`. */
  function Copied(dst: seq<byte>, at: nat, src: seq<byte>, from: nat, count: nat): (r: seq<byte>)
    requires at + count <= |dst| && from + count <= |src|
    ensures |r| == |dst|
  {
    seq(|dst|, i requires 0 <= i < |dst| => if at <= i < at + count then src[from + (i - at)] else dst[i])
  }

  lemma OneMorePart(dst: seq<byte>, at: nat, src: seq<byte>, from: nat, count: nat, more: nat)
    requires at + count + more <= |dst| && from + count + more <= |src|
    ensures Copied(Copied(dst, at, src, from, count), at + count, src, from + count, more) ==
      Copied(dst, at, src, from, count + more)
  {
  }

  /** Where a window's copy goes to, and where it comes from: memory is written when reading from the
      object, and the object otherwise. */
  function Target(w: Window, reading: bool): nat {
    if reading then w.at else w.first + w.skip
  }

  function Source(w: Window, reading: bool): nat {
    if reading then w.first + w.skip else w.at
  }

  /** The copies made through windows that tile a range, in their order. */
  function Performed(dst: seq<byte>, src: seq<byte>, ws: seq<Window>, reading: bool, page: nat, from: nat, to: nat,
      count: nat): (r: seq<byte>)
    requires page > 0 && Tiles(ws, page, from, to, count)
    requires (if reading then from else to) + count <= |src| && (if reading then to else from) + count <= |dst|
    ensures |r| == |dst|
    decreases |ws|
  {
    if ws == [] then dst
    else
      var w := ws[|ws| - 1];
      Copied(Performed(dst, src, ws[..|ws| - 1], reading, page, from, to, count - w.count),
             Target(w, reading), src, Source(w, reading), w.count)
  }

  lemma CopiedNone(dst: seq<byte>, at: nat, src: seq<byte>, from: nat)
    requires at <= |dst| && from <= |src|
    ensures Copied(dst, at, src, from, 0) == dst
  {
  }

  lemma LastCopy(dst: seq<byte>, src: seq<byte>, a: nat, b: nat, less: nat, more: nat, before: seq<byte>)
    requires a + less + more <= |dst| && b + less + more <= |src| && before == Copied(dst, a, src, b, less)
    ensures Copied(before, a + less, src, b + less, more) == Copied(dst, a, src, b, less + more)
  {
    OneMorePart(dst, a, src, b, less, more);
  }

  /** Copying through windows that tile the range copies exactly the range, and changes nothing else. */
  lemma {:induction false} TilingCopies(dst: seq<byte>, src: seq<byte>, ws: seq<Window>, reading: bool, page: nat,
      from: nat, to: nat, count: nat)
    requires page > 0 && Tiles(ws, page, from, to, count)
    requires (if reading then from else to) + count <= |src| && (if reading then to else from) + count <= |dst|
    ensures Performed(dst, src, ws, reading, page, from, to, count) ==
            Copied(dst, if reading then to else from, src, if reading then from else to, count)
    decreases |ws|
  {
    var a, b := if reading then to else from, if reading then from else to;
    if ws == [] {
      CopiedNone(dst, a, src, b);
    } else {
      var w := ws[|ws| - 1];
      var less := count - w.count;
      TilingCopies(dst, src, ws[..|ws| - 1], reading, page, from, to, less);
      LastCopy(dst, src, a, b, less, w.count, Performed(dst, src, ws[..|ws| - 1], reading, page, from, to, less));
      assert Target(w, reading) == a + less && Source(w, reading) == b + less;
    }
  }
}
