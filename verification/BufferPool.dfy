/** The pool of data buffers: which are taken, how they are counted in one byte, and runs of linked buffers. */
module BufferPool {
  import opened Bits
  import opened Common

  /** From this number on a buffer belongs to the system and to no channel. */
  const SEC_SYSTEM := 100
  /** Waiting members of a ring on channel `c` have the number `SEC_CHAIN - c`. */
  const SEC_CHAIN := 99
  const ERROR_CHANNEL := 15
  const MAX_BUFFERS := 15

  /** What is called when a buffer is closed: nothing that concerns the pool, or freeing the whole ring. */
  datatype Cleanup = Dummy | LargeBuffer

  /** A buffer without its 256 bytes of data; buffers are referred to by their place in the pool. */
  datatype Buffer = Buffer(secondary: byte, held: bool, dirty: bool, sticky: bool, mustflush: bool, sendeoi: bool,
                           position: byte, lastused: byte, cleanup: Cleanup, next: Option<nat>, first: Option<nat>, size: byte)

  /** A buffer as it comes from the pool for system use. */
  const PRISTINE := Buffer(100, true, false, false, false, false, 0, 0, Dummy, None, None, 0)

  predicate User(b: Buffer) { b.held && b.secondary < SEC_SYSTEM }

  predicate Dirty(b: Buffer) { b.held && b.dirty }

  function Count(on: bool): nat { if on then 1 else 0 }

  /** How many of the first `n` buffers are taken for other than system use. */
  function Users(s: seq<Buffer>, n: nat): (k: nat)
    requires n <= |s|
    ensures k <= n
  {
    if n == 0 then 0 else Users(s, n - 1) + Count(User(s[n - 1]))
  }

  function Dirties(s: seq<Buffer>, n: nat): (k: nat)
    requires n <= |s|
    ensures k <= n
  {
    if n == 0 then 0 else Dirties(s, n - 1) + Count(Dirty(s[n - 1]))
  }

  lemma {:induction false} CountsSet(s: seq<Buffer>, i: nat, b: Buffer, n: nat)
    requires i < |s| && n <= |s|
    ensures Users(s[i := b], n) == Users(s, n) + (if i < n then Count(User(b)) - Count(User(s[i])) else 0)
    ensures Dirties(s[i := b], n) == Dirties(s, n) + (if i < n then Count(Dirty(b)) - Count(Dirty(s[i])) else 0)
  {
    if n > 0 {
      CountsSet(s, i, b, n - 1);
    }
  }

  /** The low half of the byte counts the user buffers, the high half the dirty ones. */
  ghost predicate Accounted(s: seq<Buffer>, n: nat, active: byte)
    requires n <= |s|
  {
    active as int == Users(s, n) + 16 * Dirties(s, n)
  }

  /** With at most 15 buffers neither half runs over into the other. */
  lemma HalvesApart(s: seq<Buffer>, n: nat, active: byte)
    requires n <= |s| && n <= MAX_BUFFERS && Accounted(s, n, active)
    ensures active as int % 16 == Users(s, n) && active as int / 16 == Dirties(s, n)
  {
  }

  ghost predicate PoolOk(s: seq<Buffer>, active: byte) {
    && 1 <= |s| <= MAX_BUFFERS + 1 && Accounted(s, |s| - 1, active)
    && s[|s| - 1].held && s[|s| - 1].secondary == ERROR_CHANNEL
  }

  /** Changing one buffer changes the byte by the difference of that buffer alone. */
  lemma AccountSet(s: seq<Buffer>, i: nat, b: Buffer, active: byte, active': byte)
    requires PoolOk(s, active) && i < |s| - 1
    requires active' as int == active + Count(User(b)) - Count(User(s[i])) + 16 * (Count(Dirty(b)) - Count(Dirty(s[i])))
    ensures PoolOk(s[i := b], active')
  {
    CountsSet(s, i, b, |s| - 1);
  }

  lemma {:induction false} CountsBound(s: seq<Buffer>, i: nat, n: nat)
    requires i < n <= |s|
    ensures Users(s, n) >= Count(User(s[i])) && Dirties(s, n) >= Count(Dirty(s[i]))
    ensures Users(s, n) <= n - 1 + Count(User(s[i])) && Dirties(s, n) <= n - 1 + Count(Dirty(s[i]))
  {
    if i < n - 1 {
      CountsBound(s, i, n - 1);
    }
  }

  // ----- contiguous runs -----

  /** Buffers `start` to `start + count - 1` exist and are free. */
  ghost predicate FreeRun(s: seq<Buffer>, start: nat, count: nat) {
    start + count < |s| && forall i :: start <= i < start + count ==> !s[i].held
  }

  /** No free run of that length starts before `start`. */
  ghost predicate NoRunBefore(s: seq<Buffer>, start: int, count: nat) {
    forall i: nat :: i < start ==> !FreeRun(s, i, count)
  }

  /** The buffers of a run once they are taken: linked to each other, the last to none. */
  ghost function Linked(i: nat, start: nat, count: byte): Buffer
    requires start <= i < start + count
  {
    var next := if i == start + count - 1 then None else Some(i + 1);
    Buffer(0, true, false, false, false, false, 0, 0, Dummy, next, Some(start), count)
  }

  /** The pool with the run taken. */
  ghost function WithRun(s: seq<Buffer>, start: nat, count: byte): (r: seq<Buffer>)
    requires start + count <= |s|
    ensures |r| == |s|
  {
    seq(|s|, i requires 0 <= i < |s| => if start <= i < start + count then Linked(i, start, count) else s[i])
  }

  // ----- freeing -----

  /** `b` after `free_buffer`; buffers of the error channel and free ones stay as they are. */
  function Freed(b: Buffer): Buffer {
    if b.secondary == ERROR_CHANNEL || !b.held then b else b.(held := false)
  }

  datatype Flags = Flags(clean: bool, system: bool, sticky: bool)

  /** Which buffers are to be freed: system and sticky ones only if asked for. */
  ghost predicate Matches(flags: Flags, b: Buffer) {
    b.held && (flags.system || b.secondary < 100) && (flags.sticky || !b.sticky)
  }

  class Pool {
    /** The buffers, and one more for the error channel. */
    const bufs: array<Buffer>
    /** Number of user buffers and 16 times the number of dirty ones. */
    var active: byte

    constructor (count: nat)
      requires count <= MAX_BUFFERS
      ensures Valid() && fresh(bufs) && bufs.Length == count + 1
      ensures forall i :: 0 <= i < count ==> !bufs[i].held && bufs[i].secondary == 0
      ensures bufs[count].held && bufs[count].secondary == 15 && bufs[count].sendeoi && !bufs[count].dirty
        && bufs[count].cleanup == Dummy
    {
      var b := new Buffer[count + 1](_ => PRISTINE.(secondary := 0, held := false));
      bufs := b;
      active := 0;
      new;
      b[count] := PRISTINE.(secondary := 15, sendeoi := true);
      NothingHeld(b[..], count);
    }

    ghost predicate Valid()
      reads this, bufs
    {
      PoolOk(bufs[..], active)
    }

    /** The first free buffer, for system use. */
    method AllocSystemBuffer() returns (r: Option<nat>)
      requires Valid()
      modifies bufs
      ensures Valid() && FirstFree(old(bufs[..]), r)
      ensures bufs[..] ==
        if r.Some? then old(bufs[..])[r.value := Buffer(100, true, false, false, false, false, 0, 0, Dummy, None, None, 0)]
        else old(bufs[..])
    {
      var i := 0;
      while i < bufs.Length - 1
        invariant 0 <= i <= bufs.Length - 1 && forall j :: 0 <= j < i ==> bufs[j].held
        invariant bufs[..] == old(bufs[..])
      {
        if !bufs[i].held {
          AccountSet(bufs[..], i, PRISTINE, active, active);
          bufs[i] := PRISTINE;
          return Some(i);
        }
        i := i + 1;
      }
      return None;
    }

    /** The first free buffer, for a channel. */
    method AllocBuffer() returns (r: Option<nat>)
      requires Valid()
      modifies this, bufs
      ensures Valid() && FirstFree(old(bufs[..]), r)
      ensures bufs[..] ==
        if r.Some? then old(bufs[..])[r.value := Buffer(0, true, false, false, false, false, 0, 0, Dummy, None, None, 0)]
        else old(bufs[..])
    {
      r := AllocSystemBuffer();
      if r.Some? {
        CountsBound(bufs[..], r.value, bufs.Length - 1);
        AccountSet(bufs[..], r.value, PRISTINE.(secondary := 0), active, active + 1);
        bufs[r.value] := bufs[r.value].(secondary := 0);
        active := active + 1;
      }
    }

    /** The first run of `count` free buffers, linked; or none if there is no such run. */
    method AllocLinkedBuffers(count: byte) returns (r: Option<nat>)
      requires Valid() && count >= 1
      modifies this, bufs
      ensures Valid()
      ensures r.None? ==> bufs[..] == old(bufs[..]) && NoRunBefore(old(bufs[..]), bufs.Length, count)
      ensures r.Some? ==> FreeRun(old(bufs[..]), r.value, count) && NoRunBefore(old(bufs[..]), r.value, count)
      ensures r.Some? ==> bufs[..] == WithRun(old(bufs[..]), r.value, count)
    {
      var start, freebufs := FindRun(count);
      if freebufs < count as int {
        return None;
      }
      Chain(start, count);
      r := Some(start);
    }

    /** Counts free buffers until `count` of them stand side by side. */
    method FindRun(count: byte) returns (start: nat, freebufs: nat)
      requires Valid() && count >= 1
      ensures freebufs <= count as int
      ensures freebufs == count as int ==> FreeRun(bufs[..], start, count) && NoRunBefore(bufs[..], start, count)
      ensures freebufs < count as int ==> NoRunBefore(bufs[..], bufs.Length, count)
    {
      start, freebufs := 0, 0;
      var i := 0;
      while i < bufs.Length - 1
        invariant 0 <= i <= bufs.Length - 1 && freebufs < count as int && freebufs <= i
        invariant freebufs > 0 ==> start + freebufs == i
        invariant forall j :: i - freebufs <= j < i ==> !bufs[..][j].held
        invariant i - freebufs > 0 ==> bufs[..][i - freebufs - 1].held
        invariant NoRunBefore(bufs[..], i - freebufs, count)
      {
        if bufs[i].held {
          BlockedRuns(bufs[..], i - freebufs, i, count);
          freebufs := 0;
        } else {
          if freebufs == 0 {
            start := i;
          }
          freebufs := freebufs + 1;
          if freebufs == count as int {
            return;
          }
        }
        i := i + 1;
      }
      ShortRuns(bufs[..], i - freebufs, count);
    }

    /** Takes the run that starts at `start` and links its buffers. */
    method Chain(start: nat, count: byte)
      requires Valid() && count >= 1 && FreeRun(bufs[..], start, count)
      modifies this, bufs
      ensures Valid() && bufs[..] == WithRun(old(bufs[..]), start, count)
    {
      hide Accounted, Users, Dirties;
      ghost var s := old(bufs[..]);
      var i := 0;
      while i < count as int
        invariant 0 <= i <= count as int && Valid()
        invariant bufs[..] == Partly(s, start, count, i)
      {
        Room(bufs[..], start + i, active);
        var b := PRISTINE.(secondary := 0, next := Some(start + i + 1), first := Some(start), size := count);
        AccountSet(bufs[..], start + i, b, active, active + 1);
        bufs[start + i] := b;
        active := active + 1;
        i := i + 1;
      }
      AccountSet(bufs[..], start + count as int - 1, bufs[start + count as int - 1].(next := None), active, active);
      bufs[start + count as int - 1] := bufs[start + count as int - 1].(next := None);
    }

    /** Gives a buffer back; nothing happens for no buffer, a free one, or the error channel. */
    method FreeBuffer(r: Option<nat>)
      requires Valid() && (r.Some? ==> r.value < bufs.Length)
      modifies this, bufs
      ensures Valid()
      ensures bufs[..] == if r.Some? then old(bufs[..])[r.value := Freed(old(bufs[r.value]))] else old(bufs[..])
    {
      if r.None? {
        return;
      }
      var i := r.value;
      assert bufs[..][i := bufs[i]] == bufs[..];
      if bufs[i].secondary == ERROR_CHANNEL || !bufs[i].held {
        return;
      }
      FreedAccount(bufs[..], i, active);
      bufs[i] := bufs[i].(held := false);
      if bufs[i].dirty {
        active := (active - 16) % 256;
      }
      if bufs[i].secondary < SEC_SYSTEM {
        active := (active - 1) % 256;
      }
    }

    method MarkBufferDirty(i: nat)
      requires Valid() && i < bufs.Length - 1 && bufs[i].held
      modifies this, bufs
      ensures Valid() && bufs[..] == old(bufs[..])[i := old(bufs[i]).(dirty := true)]
    {
      assert bufs[..][i := bufs[i]] == bufs[..];
      if !bufs[i].dirty {
        CountsBound(bufs[..], i, bufs.Length - 1);
        AccountSet(bufs[..], i, bufs[i].(dirty := true), active, active + 16);
        bufs[i] := bufs[i].(dirty := true);
        active := active + 16;
      }
    }

    method MarkBufferClean(i: nat)
      requires Valid() && i < bufs.Length - 1 && bufs[i].held
      modifies this, bufs
      ensures Valid() && bufs[..] == old(bufs[..])[i := old(bufs[i]).(dirty := false)]
    {
      assert bufs[..][i := bufs[i]] == bufs[..];
      if bufs[i].dirty {
        CountsBound(bufs[..], i, bufs.Length - 1);
        AccountSet(bufs[..], i, bufs[i].(dirty := false), active, active - 16);
        bufs[i] := bufs[i].(dirty := false);
        active := active - 16;
      }
    }

    /** The first buffer with a channel number, the error channel included. */
    method FindBuffer(secondary: byte) returns (r: Option<nat>)
      ensures FirstWith(bufs[..], secondary, r)
    {
      var i := 0;
      while i < bufs.Length
        invariant 0 <= i <= bufs.Length
        invariant forall j :: 0 <= j < i ==> !(bufs[j].held && bufs[j].secondary == secondary)
      {
        if bufs[i].held && bufs[i].secondary == secondary {
          return Some(i);
        }
        i := i + 1;
      }
      r := None;
    }

    /** Changes fields of a buffer in use that the count does not depend on. */
    method Set(i: nat, b: Buffer)
      requires Valid() && i < bufs.Length - 1
      requires User(b) == User(bufs[i]) && Dirty(b) == Dirty(bufs[i])
      modifies bufs
      ensures Valid() && bufs[..] == old(bufs[..])[i := b]
    {
      AccountSet(bufs[..], i, b, active, active);
      bufs[i] := b;
    }
  }

  /** Freeing a buffer takes exactly its shares out of the byte, which never runs below zero. */
  lemma FreedAccount(s: seq<Buffer>, i: nat, active: byte)
    requires PoolOk(s, active) && i < |s| && s[i].held && s[i].secondary != ERROR_CHANNEL
    ensures var a := if s[i].dirty then (active - 16) % 256 else active;
      PoolOk(s[i := s[i].(held := false)], if s[i].secondary < SEC_SYSTEM then (a - 1) % 256 else a)
  {
    hide PoolOk;
    Share(s, i, active);
    AccountSet(s, i, s[i].(held := false), active, active - 16 * Count(s[i].dirty) - Count(User(s[i])));
  }

  /** As long as a buffer is free there is room for one more in the count. */
  lemma Room(s: seq<Buffer>, i: nat, active: byte)
    requires PoolOk(s, active) && i < |s| - 1 && !s[i].held
    ensures active < 255
  {
    CountsBound(s, i, |s| - 1);
  }

  /** The byte is at least the share of any one buffer. */
  lemma Share(s: seq<Buffer>, i: nat, active: byte)
    requires PoolOk(s, active) && i < |s| && s[i].held && s[i].secondary != ERROR_CHANNEL
    ensures i < |s| - 1 && active as int >= 16 * Count(Dirty(s[i])) + Count(User(s[i]))
  {
    hide User, Dirty;
    CountsBound(s, i, |s| - 1);
  }

  lemma {:induction false} NothingHeld(s: seq<Buffer>, n: nat)
    requires n <= |s| && forall i :: 0 <= i < n ==> !s[i].held
    ensures Users(s, n) == 0 && Dirties(s, n) == 0
  {
    if n > 0 {
      NothingHeld(s, n - 1);
    }
  }

  /** `r` is the first free buffer, the error channel left out. */
  ghost predicate FirstFree(s: seq<Buffer>, r: Option<nat>) {
    match r
    case Some(i) => i < |s| - 1 && !s[i].held && forall j :: 0 <= j < i ==> s[j].held
    case None => forall j :: 0 <= j < |s| - 1 ==> s[j].held
  }

  ghost predicate FirstWith(s: seq<Buffer>, secondary: byte, r: Option<nat>) {
    match r
    case Some(i) => i < |s| && s[i].held && s[i].secondary == secondary
                    && forall j :: 0 <= j < i ==> !(s[j].held && s[j].secondary == secondary)
    case None => forall j :: 0 <= j < |s| ==> !(s[j].held && s[j].secondary == secondary)
  }

  /** A run of free buffers that ends at a used one, and is too short, contains no start of a long enough run. */
  lemma BlockedRuns(s: seq<Buffer>, from: nat, i: nat, count: nat)
    requires from <= i < |s| - 1 && s[i].held && i - from < count && NoRunBefore(s, from, count)
    ensures NoRunBefore(s, i + 1, count)
  {
    forall j: nat | from <= j < i + 1
      ensures !FreeRun(s, j, count)
    {
      assert j <= i < j + count;
    }
  }

  lemma ShortRuns(s: seq<Buffer>, from: nat, count: nat)
    requires from <= |s| - 1 && |s| - 1 - from < count && NoRunBefore(s, from, count)
    ensures NoRunBefore(s, |s|, count)
  {
  }

  /** The pool with the first `i` buffers of the run taken, each linked to the one behind it. */
  ghost function Partly(s: seq<Buffer>, start: nat, count: byte, i: nat): (r: seq<Buffer>)
    ensures |r| == |s|
  {
    seq(|s|, j requires 0 <= j < |s| =>
      if start <= j < start + i then PRISTINE.(secondary := 0, next := Some(j + 1), first := Some(start), size := count) else s[j])
  }
}
