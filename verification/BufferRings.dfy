/** Direct-access buffers: rings of linked buffers of which one at a time answers to the ring's channel. */
module BufferRings {
  import opened Bits
  import opened Common
  import opened BufferPool

  /** The run of buffers a ring consists of, and which of them is active. */
  datatype Ring = Ring(start: nat, size: nat, cur: nat)

  predicate Within(r: Ring, i: int) { r.start <= i < r.start + r.size }

  /** The member of a ring at place `i`: linked to the next, waiting under its chain number unless it is the active one. */
  predicate Member(b: Buffer, c: nat, r: Ring, i: int)
    requires c < ERROR_CHANNEL && 0 <= i
  {
    && b.held && b.sticky && b.first == Some(r.start) && b.size as int == r.size && b.lastused == 255
    && b.next == (if i == r.start + r.size - 1 then None else Some(i + 1))
    && b.secondary as int == (if i == r.start + r.cur then c else SEC_CHAIN - c)
    && b.sendeoi == (i == r.start + r.size - 1)
    && (r.size > 1 ==> b.cleanup == LargeBuffer)
  }

  ghost predicate RingOk(s: seq<Buffer>, c: nat, r: Ring) {
    && c < ERROR_CHANNEL && 1 <= r.size && r.start + r.size < |s| && r.cur < r.size
    && forall i: nat {:trigger s[i]} :: Within(r, i) ==> Member(s[i], c, r, i)
  }

  ghost predicate Separate(a: Ring, b: Ring) {
    a.start + a.size <= b.start || b.start + b.size <= a.start
  }

  /** Both buffers are in use on the same channel. */
  predicate OnChannel(a: Buffer, b: Buffer) {
    a.held && b.held && a.secondary == b.secondary && a.secondary < ERROR_CHANNEL
  }

  /** No channel has two active buffers. */
  ghost predicate OneEach(s: seq<Buffer>) {
    forall i, j :: 0 <= i < |s| && 0 <= j < |s| && OnChannel(s[i], s[j]) ==> i == j
  }

  /** Chain numbers belong to members of rings. */
  ghost predicate ChainsInRings(s: seq<Buffer>, rings: map<nat, Ring>) {
    forall i :: 0 <= i < |s| && s[i].held && SEC_CHAIN - ERROR_CHANNEL < s[i].secondary <= SEC_CHAIN ==>
      SEC_CHAIN - s[i].secondary in rings && Within(rings[SEC_CHAIN - s[i].secondary], i)
  }

  ghost predicate InSomeRing(rings: map<nat, Ring>, i: int) {
    exists c :: c in rings && Within(rings[c], i)
  }

  /** Buffers that are closed as a ring are members of one. */
  ghost predicate LargeInRings(s: seq<Buffer>, rings: map<nat, Ring>) {
    forall i :: 0 <= i < |s| && s[i].held && s[i].cleanup == LargeBuffer ==> InSomeRing(rings, i)
  }

  ghost predicate ChannelsOk(s: seq<Buffer>, rings: map<nat, Ring>) {
    && OneEach(s) && ChainsInRings(s, rings) && LargeInRings(s, rings)
    && (forall c :: c in rings ==> RingOk(s, c, rings[c]))
    && (forall c, d :: c in rings && d in rings && c != d ==> Separate(rings[c], rings[d]))
  }

  /** The active buffer of a ring is the only buffer on its channel, and the others are not found under it. */
  lemma ActiveFound(s: seq<Buffer>, rings: map<nat, Ring>, c: nat, r: Option<nat>)
    requires ChannelsOk(s, rings) && c in rings && c < ERROR_CHANNEL && FirstWith(s, c, r)
    ensures r == Some(rings[c].start + rings[c].cur)
  {
    var i := rings[c].start + rings[c].cur;
    assert RingOk(s, c, rings[c]) && Member(s[i], c, rings[c], i);
  }

  /** Only buffers of one ring changed, and it is still a ring: so all is still in order. */
  lemma RingChanged(s: seq<Buffer>, s': seq<Buffer>, rings: map<nat, Ring>, c: nat, r': Ring)
    requires ChannelsOk(s, rings) && c in rings && r'.start == rings[c].start && r'.size == rings[c].size
    requires |s'| == |s| && (forall i :: 0 <= i < |s| && !Within(r', i) ==> s'[i] == s[i]) && RingOk(s', c, r')
    ensures ChannelsOk(s', rings[c := r'])
  {
    hide OneEach, ChainsInRings, LargeInRings, RingOk;
    RingKept(s, s', rings, c, r');
    StillOneEach(s, s', rings, c, r');
    StillInRings(s, s', rings, c, r');
  }

  lemma StillOneEach(s: seq<Buffer>, s': seq<Buffer>, rings: map<nat, Ring>, c: nat, r': Ring)
    requires ChannelsOk(s, rings) && c in rings && r'.start == rings[c].start && r'.size == rings[c].size
    requires |s'| == |s| && (forall i :: 0 <= i < |s| && !Within(r', i) ==> s'[i] == s[i]) && RingOk(s', c, r')
    ensures OneEach(s')
  {
    forall i, j | 0 <= i < |s| && 0 <= j < |s| && OnChannel(s'[i], s'[j])
      ensures i == j
    {
      OneHolder(s, s', rings, c, r', i, j);
    }
  }

  lemma StillInRings(s: seq<Buffer>, s': seq<Buffer>, rings: map<nat, Ring>, c: nat, r': Ring)
    requires ChannelsOk(s, rings) && c in rings && r'.start == rings[c].start && r'.size == rings[c].size
    requires |s'| == |s| && (forall i :: 0 <= i < |s| && !Within(r', i) ==> s'[i] == s[i]) && RingOk(s', c, r')
    ensures ChainsInRings(s', rings[c := r']) && LargeInRings(s', rings[c := r'])
  {
    RingsSame(rings, c, r');
    forall i | 0 <= i < |s| && Within(r', i)
      ensures Member(s'[i], c, r', i)
    {
    }
  }

  /** A ring that moves on, or comes or goes, changes nothing about being inside other rings. */
  lemma RingsSame(rings: map<nat, Ring>, c: nat, r: Ring)
    ensures forall i :: InSomeRing(rings, i) && (c !in rings || (Within(r, i) <==> Within(rings[c], i))) ==> InSomeRing(rings[c := r], i)
    ensures forall i :: Within(r, i) ==> InSomeRing(rings[c := r], i)
    ensures forall i :: InSomeRing(rings, i) && (c in rings ==> !Within(rings[c], i)) ==> InSomeRing(rings - {c}, i)
  {
    forall i | Within(r, i)
      ensures InSomeRing(rings[c := r], i)
    {
      assert c in rings[c := r];
    }
    forall i | InSomeRing(rings, i) && (c !in rings || (Within(r, i) <==> Within(rings[c], i)))
      ensures InSomeRing(rings[c := r], i)
    {
      var d :| d in rings && Within(rings[d], i);
      assert d in rings[c := r] && Within(rings[c := r][d], i);
    }
    forall i | InSomeRing(rings, i) && (c in rings ==> !Within(rings[c], i))
      ensures InSomeRing(rings - {c}, i)
    {
      var d :| d in rings && Within(rings[d], i);
      assert d in rings - {c} && Within((rings - {c})[d], i);
    }
  }

  lemma RingKept(s: seq<Buffer>, s': seq<Buffer>, rings: map<nat, Ring>, c: nat, r: Ring)
    requires ChannelsOk(s, rings) && |s'| == |s| && (forall i :: 0 <= i < |s| && !Within(r, i) ==> s'[i] == s[i])
    requires forall d :: d in rings && d != c ==> Separate(rings[d], r)
    ensures forall d :: d in rings && d != c ==> RingOk(s', d, rings[d])
  {
    forall d | d in rings && d != c
      ensures RingOk(s', d, rings[d])
    {
      assert RingOk(s, d, rings[d]);
      forall i: nat {:trigger s'[i]} | Within(rings[d], i)
        ensures Member(s'[i], d, rings[d], i)
      {
        assert s'[i] == s[i] && Member(s[i], d, rings[d], i);
      }
    }
  }

  lemma OneHolder(s: seq<Buffer>, s': seq<Buffer>, rings: map<nat, Ring>, c: nat, r': Ring, i: nat, j: nat)
    requires ChannelsOk(s, rings) && c in rings && r'.start == rings[c].start && r'.size == rings[c].size
    requires |s'| == |s| && (forall k :: 0 <= k < |s| && !Within(r', k) ==> s'[k] == s[k]) && RingOk(s', c, r')
    requires i < |s| && j < |s| && OnChannel(s'[i], s'[j])
    ensures i == j
  {
    var a := rings[c].start + rings[c].cur;
    assert RingOk(s, c, rings[c]) && Member(s[a], c, rings[c], a);
    if Within(r', i) {
      assert Member(s'[i], c, r', i);
    }
    if Within(r', j) {
      assert Member(s'[j], c, r', j);
    }
  }

  /** All buffers of a ring were freed. */
  lemma RingGone(s: seq<Buffer>, s': seq<Buffer>, rings: map<nat, Ring>, c: nat)
    requires ChannelsOk(s, rings) && c in rings && |s'| == |s|
    requires forall i :: 0 <= i < |s| ==> if Within(rings[c], i) then !s'[i].held else s'[i] == s[i]
    ensures ChannelsOk(s', rings - {c})
  {
    RingKept(s, s', rings, c, rings[c]);
    RingsSame(rings, c, rings[c]);
    forall i | 0 <= i < |s| && s'[i].held && SEC_CHAIN - ERROR_CHANNEL < s'[i].secondary <= SEC_CHAIN
      ensures SEC_CHAIN - s'[i].secondary in rings - {c}
    {
      assert s'[i] == s[i];
    }
  }

  /** A run of free buffers was made a ring on a channel that had none. */
  lemma RingAdded(s: seq<Buffer>, s': seq<Buffer>, rings: map<nat, Ring>, c: nat, r: Ring)
    requires ChannelsOk(s, rings) && c !in rings && |s'| == |s| && FreeRun(s, r.start, r.size) && RingOk(s', c, r)
    requires forall i :: 0 <= i < |s| && !Within(r, i) ==> s'[i] == s[i]
    requires forall i :: 0 <= i < |s| && s[i].held ==> s[i].secondary as int != c
    ensures ChannelsOk(s', rings[c := r])
  {
    forall d | d in rings
      ensures Separate(rings[d], r)
    {
      NoOverlap(s, d, rings[d], r);
    }
    RingKept(s, s', rings, c, r);
    RingsSame(rings, c, r);
    forall i | 0 <= i < |s| && Within(r, i)
      ensures Member(s'[i], c, r, i)
    {
    }
  }

  lemma NoOverlap(s: seq<Buffer>, d: nat, a: Ring, r: Ring)
    requires RingOk(s, d, a) && FreeRun(s, r.start, r.size) && r.size >= 1
    ensures Separate(a, r)
  {
    var i := if a.start < r.start then r.start else a.start;
    assert Within(a, i) ==> Member(s[i], d, a, i);
    assert Within(r, i) ==> !s[i].held;
  }

  /** The ring after moving on to member `to`. */
  function Moved(r: Ring, to: nat): Ring { Ring(r.start, r.size, to) }

  /** Member `n` of a ring, going round as often as needed: one step at a time, back to 0 from the last. */
  function Cycle(n: nat, size: nat): (k: nat)
    requires size > 0
    ensures k < size
  {
    if n == 0 then 0 else if Cycle(n - 1, size) == size - 1 then 0 else Cycle(n - 1, size) + 1
  }

  lemma {:induction false} CycleIsModulo(n: nat, size: nat)
    requires size > 0
    ensures Cycle(n, size) == n % size
  {
    if n > 0 {
      CycleIsModulo(n - 1, size);
      NextModulo(n - 1, size);
    } else {
      NoModulo(size);
    }
  }

  lemma NoModulo(size: nat)
    requires size > 0
    ensures 0 % size == 0
  {
  }

  lemma NextModulo(n: nat, size: nat)
    requires size > 0
    ensures (n + 1) % size == if n % size == size - 1 then 0 else n % size + 1
  {
    var q, k := n / size, n % size;
    assert n == q * size + k;
    if k == size - 1 {
      assert n + 1 == (q + 1) * size;
      RemainderIs(n + 1, size, q + 1, 0);
    } else {
      RemainderIs(n + 1, size, q, k + 1);
    }
  }

  lemma RemainderIs(n: nat, size: nat, q: nat, k: nat)
    requires 0 <= k < size && n == q * size + k
    ensures n % size == k
  {
    var d := n / size - q;
    assert n == (n / size) * size + n % size;
    assert (n / size) * size == q * size + d * size;
    assert d * size == k - n % size;
    Multiples(d, size);
  }

  lemma Multiples(d: int, size: nat)
    ensures (d >= 1 ==> d * size >= size) && (d <= -1 ==> 0 <= d * size + size * (-d) && d * size + size <= 0)
  {
    if d >= 1 {
      assert d * size == (d - 1) * size + size;
    } else if d <= -1 {
      assert d * size + size == (d + 1) * size;
    }
  }

  class Channels {
    const pool: Pool
    /** The rings, by channel. */
    ghost var rings: map<nat, Ring>

    constructor (pool: Pool)
      requires pool.Valid() && ChannelsOk(pool.bufs[..], map[])
      ensures Valid() && this.pool == pool && rings == map[]
    {
      this.pool, rings := pool, map[];
    }

    ghost function S(): seq<Buffer>
      reads pool, pool.bufs
    {
      pool.bufs[..]
    }

    ghost predicate Valid()
      reads this, pool, pool.bufs
    {
      pool.Valid() && ChannelsOk(S(), rings)
    }

    /** When the active buffer is used up the next one takes its place, and the first one after the last. */
    method Refill(i: nat, ghost c: nat)
      requires Valid() && c in rings && c < ERROR_CHANNEL && i == rings[c].start + rings[c].cur
      modifies this, pool.bufs
      ensures Valid()
      ensures rings == old(rings)[c := Moved(old(rings[c]), Cycle(old(rings[c].cur) + 1, old(rings[c].size)))]
      ensures S()[rings[c].start + rings[c].cur].position == 0 && !S()[rings[c].start + rings[c].cur].mustflush
      ensures forall k :: 0 <= k < |S()| && !Within(rings[c], k) ==> S()[k] == old(S())[k]
    {
      hide Accounted, ChannelsOk, PoolOk;
      ghost var s, r := S(), rings[c];
      RingThere(s, rings, c);
      CycleFrom(r.cur, r.size);
      var sec := pool.bufs[i].secondary;
      pool.Set(i, pool.bufs[i].(secondary := 99 - sec));
      var j := if pool.bufs[i].next.None? then pool.bufs[i].first.value else pool.bufs[i].next.value;
      assert Member(s[j], c, r, j);
      pool.Set(j, pool.bufs[j].(secondary := sec, position := 0, mustflush := false));
      RingMoved(s, S(), c, r, j - r.start);
      RingChanged(s, S(), rings, c, Moved(r, j - r.start));
      rings := rings[c := Moved(r, j - r.start)];
    }

    /** Makes member `n` of the ring active, counted from its first and going round, at a byte position. */
    method BufferPosition(c: byte, n: byte, pos: byte) returns (found: bool)
      requires Valid() && c as int < ERROR_CHANNEL
        && (c as nat in rings || forall k :: 0 <= k < |S()| && S()[k].held ==> S()[k].secondary != c)
      modifies this, pool.bufs
      ensures Valid() && found == (c as nat in old(rings))
      ensures !found ==> rings == old(rings) && S() == old(S())
      ensures found ==>
        rings == old(rings)[c as nat := Moved(old(rings[c as nat]), n as nat % old(rings[c as nat].size))]
      ensures found ==> S()[rings[c as nat].start + rings[c as nat].cur].position == pos
    {
      hide Accounted, OneEach, ChainsInRings, ChannelsOk, PoolOk, FirstWith;
      var b := pool.FindBuffer(c);
      if b.None? {
        ActiveThere(S(), rings, c);
        return false;
      }
      ActiveFound(S(), rings, c, b);
      ghost var s, r := S(), rings[c as nat];
      RingThere(s, rings, c);
      var i := b.value;
      if pool.bufs[i].size != 1 {
        i := SelectMember(i, c, n, r);
      } else {
        CycleOne(n);
      }
      PlaceByte(i, pos);
      RingMoved(s, S(), c, r, i - r.start);
      RingChanged(s, S(), rings, c, Moved(r, i - r.start));
      rings := rings[c as nat := Moved(r, i - r.start)];
      found := true;
    }

    method PlaceByte(i: nat, pos: byte)
      requires pool.Valid() && i < |S()| - 1
      modifies pool.bufs
      ensures pool.Valid() && S() == old(S())[i := old(S()[i]).(position := pos)]
    {
      hide Accounted;
      pool.Set(i, pool.bufs[i].(position := pos));
    }

    /** Makes another member of a ring the one that answers to its channel. */
    method SelectMember(i: nat, c: byte, n: byte, ghost r: Ring) returns (j: nat)
      requires pool.Valid() && c as int < ERROR_CHANNEL && RingOk(S(), c, r) && i == r.start + r.cur
      modifies pool.bufs
      ensures pool.Valid() && |S()| == |old(S())| && j == r.start + n as nat % r.size
      ensures forall k :: 0 <= k < |S()| && k != i && k != j ==> S()[k] == old(S())[k]
      ensures i != j ==> S()[i] == old(S())[i].(secondary := 99 - c)
      ensures S()[j] == old(S())[j].(secondary := c, mustflush := false)
    {
      hide Accounted;
      ghost var s := S();
      assert Member(s[i], c, r, i);
      CycleIsModulo(n, r.size);
      pool.Set(i, pool.bufs[i].(secondary := 99 - c));
      j := Walk(pool.bufs[i].first.value, n, s, c, r);
      assert Member(s[j], c, r, j);
      pool.Set(j, pool.bufs[j].(secondary := c, mustflush := false));
    }

    /** Walks along the chain, from its end back to its first buffer. */
    method Walk(first: nat, n: byte, ghost s: seq<Buffer>, ghost c: nat, ghost r: Ring) returns (i: nat)
      requires RingOk(s, c, r) && first == r.start && |S()| == |s|
      requires forall k :: 0 <= k < |s| ==> S()[k].next == s[k].next && S()[k].first == s[k].first
      ensures i == r.start + Cycle(n, r.size)
    {
      i := first;
      var count: int := n;
      while count != 0
        invariant 0 <= count <= n as int && i == r.start + Cycle(n as int - count, r.size)
        decreases count
      {
        count := count - 1;
        assert Member(s[i], c, r, i) && S()[i].next == s[i].next && S()[i].first == s[i].first;
        if pool.bufs[i].next.Some? {
          i := pool.bufs[i].next.value;
        } else {
          i := pool.bufs[i].first.value;
        }
      }
    }

    /** Closes a channel: every buffer of its ring is freed, or the buffer of the file that is open on it. */
    method Close(c: byte)
      requires Valid() && c as int < ERROR_CHANNEL
      modifies this, pool, pool.bufs
      ensures Valid() && rings == old(rings) - {c as nat} && |S()| == |old(S())|
      ensures forall k :: 0 <= k < |S()| ==> if UsedBy(old(S()), old(rings), c, k) then !S()[k].held else S()[k] == old(S())[k]
      ensures forall k :: 0 <= k < |S()| && S()[k].held ==> S()[k].secondary != c
    {
      hide Accounted, OneEach, ChainsInRings, ChannelsOk, PoolOk, Member, RingOk, FirstWith;
      ghost var s := S();
      var b := pool.FindBuffer(c);
      if b.None? {
        ActiveThere(s, rings, c);
        NobodyThere(s, c);
        assert rings - {c as nat} == rings;
        return;
      }
      Holder(s, rings, c, b.value);
      if pool.bufs[b.value].cleanup == LargeBuffer {
        FreeRing(pool.bufs[b.value].first, c, rings[c as nat]);
      }
      pool.FreeBuffer(b);
      HolderGone(s, S(), rings, c, b.value);
      rings := rings - {c as nat};
    }

    /** Frees the buffers of a ring one after the other. */
    method FreeRing(first: Option<nat>, ghost c: nat, ghost r: Ring)
      requires pool.Valid() && RingOk(S(), c, r) && first == Some(r.start)
      modifies pool, pool.bufs
      ensures pool.Valid() && |S()| == |old(S())|
      ensures forall k :: 0 <= k < |S()| ==> S()[k] == if Within(r, k) then old(S())[k].(held := false) else old(S())[k]
    {
      hide Accounted;
      ghost var s, k := S(), r.start;
      var b := first;
      while b.Some?
        invariant pool.Valid() && |S()| == |s| && r.start <= k <= r.start + r.size
        invariant b == if k == r.start + r.size then None else Some(k)
        invariant forall j :: 0 <= j < |s| ==> S()[j] == if r.start <= j < k then s[j].(held := false) else s[j]
        decreases r.start + r.size - k
      {
        assert Member(s[k], c, r, k) && S()[k] == s[k];
        pool.FreeBuffer(b);
        b := pool.bufs[b.value].next;
        k := k + 1;
      }
    }

    /**
     Opens a channel for direct access, closing it first if it is open. With a count it gets a ring of that
     many buffers that lie side by side, without one a single buffer.
     */
    method Open(c: byte, count: Option<byte>) returns (ok: bool)
      requires Valid() && c as int < ERROR_CHANNEL
      modifies this, pool, pool.bufs
      ensures Valid()
      ensures ok ==> c as nat in rings && rings == (old(rings) - {c as nat})[c as nat := rings[c as nat]]
      ensures ok ==> rings[c as nat].cur == 0 && rings[c as nat].size == (if count.Some? then count.value as int else 1)
      ensures ok ==> OpenedAs(S(), rings[c as nat], c, count.None?)
      ensures !ok ==> rings == old(rings) - {c as nat}
      ensures |S()| == |old(S())| && forall k :: 0 <= k < |S()| && !(ok && Within(rings[c as nat], k)) ==>
        if UsedBy(old(S()), old(rings), c, k) then !S()[k].held else S()[k] == old(S())[k]
      ensures !ok && count.Some? && count.value > 0 ==> NoRunBefore(S(), |S()|, count.value)
      ensures !ok && count.None? ==> FirstFree(S(), None)
    {
      hide ChannelsOk, PoolOk, RingOk, NoRunBefore, FirstFree, UsedBy, OpenedAs;
      Close(c);
      var start;
      if count.Some? {
        if count.value == 0 {
          return false;
        }
        ok, start := OpenLarge(c, count.value);
      } else {
        ok, start := OpenSingle(c);
      }
    }

    /**
     The buffers of a channel just opened: the first has the channel's number, the others wait under 99 less that; all
     are full, the last one ends the transfer; a single one is positioned behind its first byte, others at the start.
     */
    ghost predicate OpenedAs(s: seq<Buffer>, r: Ring, c: byte, single: bool) {
      && r.start + r.size <= |s|
      && forall i :: r.start <= i < r.start + r.size ==>
        && s[i].held && s[i].sticky && s[i].lastused == 255 && s[i].first == Some(r.start) && s[i].size as int == r.size
        && s[i].secondary as int == (if i == r.start then c as int else 99 - c as int)
        && s[i].position == (if single then 1 else 0) && (s[i].sendeoi <==> i == r.start + r.size - 1)
        && s[i].next == (if i == r.start + r.size - 1 then None else Some(i + 1))
        && s[i].cleanup == (if single then Dummy else LargeBuffer)
        && !s[i].dirty && !s[i].mustflush
    }

    /** Takes a run of buffers and makes a ring of it, with the first one active. */
    method OpenLarge(c: byte, count: byte) returns (ok: bool, start: nat)
      requires Valid() && c as int < ERROR_CHANNEL && c as nat !in rings && count > 0
      requires forall k :: 0 <= k < |S()| && S()[k].held ==> S()[k].secondary != c
      modifies this, pool, pool.bufs
      ensures Valid()
      ensures ok ==> rings == old(rings)[c as nat := Ring(start, count as nat, 0)]
      ensures ok ==> OpenedAs(S(), rings[c as nat], c, false)
      ensures |S()| == |old(S())| && forall k :: 0 <= k < |S()| && !(ok && start <= k < start + count as int) ==> S()[k] == old(S())[k]
      ensures !ok ==> rings == old(rings) && NoRunBefore(S(), |S()|, count)
    {
      hide ChannelsOk, PoolOk, NoRunBefore;
      ghost var s := S();
      var r := pool.AllocLinkedBuffers(count);
      if r.None? {
        return false, 0;
      }
      Prepare(s, r.value, c, count);
      MadeRing(s, S(), r.value, c, count);
      RingAdded(s, S(), rings, c, Ring(r.value, count, 0));
      rings := rings[c as nat := Ring(r.value, count, 0)];
      ok, start := true, r.value;
    }

    /** Sets up the buffers of a new run for direct access. */
    method Prepare(ghost s: seq<Buffer>, start: nat, c: byte, count: byte)
      requires pool.Valid() && c as int < ERROR_CHANNEL && count > 0 && start + count as int < |s|
      requires S() == WithRun(s, start, count)
      modifies pool.bufs
      ensures pool.Valid() && |S()| == |s|
      ensures forall i :: 0 <= i < |s| ==> S()[i] == if start <= i < start + count as int then RingBuffer(i, start, count, c) else s[i]
    {
      hide Accounted;
      var i := start;
      var more := true;
      while more
        invariant pool.Valid() && |S()| == |s| && start <= i <= start + count as int - 1
        invariant forall j :: 0 <= j < |s| ==> S()[j] == Preparing(s, start, count, c, j, if more then i else i + 1)
        invariant !more ==> i == start + count as int - 1
        decreases more, start + count as int - i
      {
        pool.Set(i, pool.bufs[i].(secondary := 99 - c, cleanup := LargeBuffer, sticky := true, lastused := 255));
        if pool.bufs[i].next.Some? {
          i := pool.bufs[i].next.value;
        } else {
          more := false;
        }
      }
      pool.Set(i, pool.bufs[i].(sendeoi := true));
      i := pool.bufs[i].first.value;
      pool.Set(i, pool.bufs[i].(secondary := c));
    }

    /** Takes a single buffer, which is a ring by itself; its first byte is skipped. */
    method OpenSingle(c: byte) returns (ok: bool, start: nat)
      requires Valid() && c as int < ERROR_CHANNEL && c as nat !in rings
      requires forall k :: 0 <= k < |S()| && S()[k].held ==> S()[k].secondary != c
      modifies this, pool, pool.bufs
      ensures Valid()
      ensures ok ==> rings == old(rings)[c as nat := Ring(start, 1, 0)] && start < |S()| && S()[start].position == 1
      ensures ok ==> OpenedAs(S(), rings[c as nat], c, true)
      ensures |S()| == |old(S())| && forall k :: 0 <= k < |S()| && !(ok && k == start) ==> S()[k] == old(S())[k]
      ensures !ok ==> rings == old(rings) && FirstFree(S(), None)
    {
      hide ChannelsOk, PoolOk;
      ghost var s := S();
      var r := pool.AllocBuffer();
      if r.None? {
        return false, 0;
      }
      SetUp(r.value, c);
      RingAdded(s, S(), rings, c, Ring(r.value, 1, 0));
      rings := rings[c as nat := Ring(r.value, 1, 0)];
      ok, start := true, r.value;
    }

    method SetUp(i: nat, c: byte)
      requires pool.Valid() && i < |S()| - 1 && c as int < ERROR_CHANNEL && User(S()[i])
      modifies pool.bufs
      ensures pool.Valid()
      ensures S() == old(S())[i := old(S()[i]).(secondary := c, position := 1, lastused := 255, sendeoi := true, size := 1,
                                                first := Some(i), sticky := true)]
    {
      hide Accounted;
      pool.Set(i, pool.bufs[i].(secondary := c, position := 1, lastused := 255, sendeoi := true,
        size := 1, first := Some(i), sticky := true));
    }

    /**
     Frees all buffers that match, calling the cleanup functions if asked to, until one of them fails; in any
     case every matching buffer is free in the end and no other is touched. `fails` says which of the
     cleanup functions that do not concern the pool report an error, `called` whose cleanup function was called.
     After an error none is called any more, so all that are due are called only if none but the last fails.
     */
    method FreeMultipleBuffers(flags: Flags, fails: seq<bool>) returns (res: bool, ghost called: set<nat>)
      requires Valid() && |fails| == |S()|
      modifies this, pool, pool.bufs
      ensures Valid() && |S()| == |old(S())| && rings == if flags.sticky then map[] else old(rings)
      ensures res <==> AnyFails(old(S()), flags, fails, |S()| - 1)
      ensures forall k: nat :: k in called <==> Due(old(S()), flags, k) && !AnyFails(old(S()), flags, fails, k)
      ensures (forall k: nat :: Due(old(S()), flags, k) ==> k in called) <==>
        forall j: nat, k: nat :: j < k && Due(old(S()), flags, j) && Due(old(S()), flags, k) ==> !Failing(old(S()), fails, j)
      ensures forall k :: 0 <= k < |S()| - 1 ==> S()[k] == if Matches(flags, old(S())[k]) then Freed(old(S())[k]) else old(S())[k]
      ensures S()[|S()| - 1] == old(S())[|S()| - 1]
    {
      hide ChannelsOk, PoolOk, Whole, Matches;
      ghost var s := S();
      res, called := false, {};
      var i := 0;
      PoolSize(s, pool.active);
      AllWhole(s, rings);
      while i < pool.bufs.Length - 1
        invariant 0 <= i <= pool.bufs.Length - 1 && pool.Valid() && |S()| == |s| && FreeingUpTo(s, S(), flags, i)
        invariant rings == old(rings) && (flags.clean && !res ==> AllRingsWhole(s, S(), rings))
        invariant OwnKept(s, S(), i) && (res <==> AnyFails(s, flags, fails, i))
        invariant forall k: nat :: k in called <==> k < i && Due(s, flags, k) && !AnyFails(s, flags, fails, k)
      {
        var b := pool.bufs[i];
        MatchTest(flags, b);
        if b.held && (flags.system || b.secondary < SEC_SYSTEM) && (flags.sticky || !b.sticky) {
          ghost var failed := res;
          res := FreeOne(i, flags.clean, res, fails[i], s, flags);
          called := if flags.clean && !failed then called + {i} else called;
        }
        i := i + 1;
      }
      AllDue(s, flags, fails, called);
      AfterFreeing(s, S(), flags, rings);
      rings := if flags.sticky then map[] else rings;
    }

    static lemma MatchTest(flags: Flags, b: Buffer)
      ensures Matches(flags, b) <==> b.held && (flags.system || b.secondary < SEC_SYSTEM) && (flags.sticky || !b.sticky)
    {
    }

    /** Frees one matching buffer, after its cleanup if no cleanup has failed so far. */
    method FreeOne(i: nat, clean: bool, failed: bool, fails: bool, ghost s: seq<Buffer>, ghost flags: Flags) returns (res: bool)
      requires pool.Valid() && ChannelsOk(s, rings) && |S()| == |s| && i < |s| - 1 && clean == flags.clean
      requires FreeingUpTo(s, S(), flags, i) && S()[i].held && Matches(flags, S()[i])
      requires clean && !failed ==> AllRingsWhole(s, S(), rings)
      requires OwnKept(s, S(), i)
      modifies pool, pool.bufs
      ensures pool.Valid() && |S()| == |s| && FreeingUpTo(s, S(), flags, i + 1)
      ensures clean && !res ==> AllRingsWhole(s, S(), rings)
      ensures OwnKept(s, S(), i + 1) && (res <==> failed || (clean && s[i].cleanup == Dummy && fails))
      ensures clean && !failed ==> Due(s, flags, i)
    {
      hide PoolOk, ChannelsOk, AllRingsWhole;
      ghost var u := S();
      res := failed;
      if clean {
        if !res {
          if pool.bufs[i].cleanup == LargeBuffer {
            ghost var c := RingOfMember(s, u, rings, i);
            FreeRing(pool.bufs[i].first, c, rings[c]);
            RingFreed(s, u, S(), flags, rings, c, i);
            OwnOutside(s, u, rings, c, flags, i);
          } else {
            res := fails;
          }
        }
      }
      ghost var v := S();
      pool.FreeBuffer(Some(i));
      OneFreed(s, u, v, S(), flags, rings, i);
    }
  }

  lemma PoolSize(s: seq<Buffer>, active: byte)
    requires PoolOk(s, active)
    ensures |s| >= 1 && s[|s| - 1].held && s[|s| - 1].secondary == ERROR_CHANNEL
  {
  }

  /** Up to `i` all matching buffers are freed; the others are as they were, unless they match and were freed too. */
  ghost predicate FreeingUpTo(s: seq<Buffer>, u: seq<Buffer>, flags: Flags, i: nat) {
    && |u| == |s| >= 1 && u[|s| - 1] == s[|s| - 1]
    && (forall k :: 0 <= k < |s| - 1 ==> u[k] == s[k] || (Matches(flags, s[k]) && u[k] == Freed(s[k])))
    && (forall k :: 0 <= k < i && k < |s| - 1 && Matches(flags, s[k]) ==> u[k] == Freed(s[k]))
  }

  /** A cleanup function that does not concern the pool reports an error. */
  ghost predicate Failing(s: seq<Buffer>, fails: seq<bool>, k: nat) {
    k < |s| && k < |fails| && s[k].cleanup == Dummy && fails[k]
  }

  /** One of the first `n` cleanup functions that are called fails. */
  ghost predicate AnyFails(s: seq<Buffer>, flags: Flags, fails: seq<bool>, n: nat) {
    exists k: nat :: k < n && Due(s, flags, k) && Failing(s, fails, k)
  }

  /** Whose cleanup has to be called: all that match, but a ring has only one, at its first buffer. */
  ghost predicate Due(s: seq<Buffer>, flags: Flags, k: nat) {
    flags.clean && k < |s| - 1 && Matches(flags, s[k]) && Own(s, k)
  }

  ghost predicate Own(s: seq<Buffer>, k: nat)
    requires k < |s|
  {
    s[k].cleanup == Dummy || s[k].first == Some(k)
  }

  /** From `i` on, only buffers behind the first one of a ring may have been freed. */
  ghost predicate OwnKept(s: seq<Buffer>, u: seq<Buffer>, i: nat) {
    |u| == |s| && forall k :: i <= k < |s| && Own(s, k) ==> u[k] == s[k]
  }

  /** The first buffer of an untouched ring is the first to be reached, and the others have no cleanup of their own. */
  lemma OwnOutside(s: seq<Buffer>, u: seq<Buffer>, rings: map<nat, Ring>, c: nat, flags: Flags, i: nat)
    requires ChannelsOk(s, rings) && c in rings && Within(rings[c], i) && FreeingUpTo(s, u, flags, i)
      && Matches(flags, s[i])
    requires forall k :: Within(rings[c], k) ==> u[k] == s[k]
    ensures Own(s, i)
    ensures forall k :: 0 <= k < |s| && k != i && Within(rings[c], k) ==> !Own(s, k)
  {
    var r := rings[c];
    assert RingOk(s, c, r) && Member(s[i], c, r, i) && Member(s[r.start], c, r, r.start);
    assert Matches(flags, s[r.start]);
    forall k | 0 <= k < |s| && k != i && Within(r, k)
      ensures !Own(s, k)
    {
      assert Member(s[k], c, r, k);
    }
  }

  /** All cleanup functions that are due are called exactly if none but the last one fails. */
  lemma AllDue(s: seq<Buffer>, flags: Flags, fails: seq<bool>, called: set<nat>)
    requires forall k: nat :: k in called <==> Due(s, flags, k) && !AnyFails(s, flags, fails, k)
    ensures (forall k: nat :: Due(s, flags, k) ==> k in called) <==>
      forall j: nat, k: nat :: j < k && Due(s, flags, j) && Due(s, flags, k) ==> !Failing(s, fails, j)
  {
    hide Due, Failing;
  }

  /** A ring is untouched, or all its buffers are free. */
  ghost predicate Whole(s: seq<Buffer>, u: seq<Buffer>, r: Ring)
    requires |u| == |s| && r.start + r.size <= |s|
  {
    (forall k :: Within(r, k) ==> u[k] == s[k]) || (forall k :: Within(r, k) ==> !u[k].held)
  }

  ghost predicate AllRingsWhole(s: seq<Buffer>, u: seq<Buffer>, rings: map<nat, Ring>) {
    |u| == |s| && forall c :: c in rings ==> rings[c].start + rings[c].size <= |s| && Whole(s, u, rings[c])
  }

  lemma AllWhole(s: seq<Buffer>, rings: map<nat, Ring>)
    requires ChannelsOk(s, rings)
    ensures AllRingsWhole(s, s, rings)
  {
    forall c | c in rings
      ensures rings[c].start + rings[c].size <= |s| && Whole(s, s, rings[c])
    {
      assert RingOk(s, c, rings[c]);
    }
  }

  /** A buffer that is closed as a ring belongs to a ring that is still untouched. */
  lemma RingOfMember(s: seq<Buffer>, u: seq<Buffer>, rings: map<nat, Ring>, i: nat) returns (c: nat)
    requires ChannelsOk(s, rings) && AllRingsWhole(s, u, rings) && i < |u| && u[i].held && u[i].cleanup == LargeBuffer
    requires u[i] == s[i]
    ensures c in rings && c < ERROR_CHANNEL && Within(rings[c], i) && RingOk(u, c, rings[c])
      && u[i].first == Some(rings[c].start)
    ensures forall k :: Within(rings[c], k) ==> u[k] == s[k]
  {
    assert InSomeRing(rings, i);
    c :| c in rings && Within(rings[c], i);
    assert RingOk(s, c, rings[c]) && Whole(s, u, rings[c]);
    assert Member(s[i], c, rings[c], i);
  }

  /** Freeing a ring of which one member matches frees matching buffers only, and whole rings. */
  lemma RingFreed(s: seq<Buffer>, u: seq<Buffer>, v: seq<Buffer>, flags: Flags, rings: map<nat, Ring>, c: nat, i: nat)
    requires ChannelsOk(s, rings) && FreeingUpTo(s, u, flags, i) && AllRingsWhole(s, u, rings) && |v| == |u|
    requires c in rings && RingOk(s, c, rings[c]) && Within(rings[c], i) && Matches(flags, s[i])
    requires forall k :: Within(rings[c], k) ==> u[k] == s[k]
    requires forall k :: 0 <= k < |v| ==> v[k] == if Within(rings[c], k) then u[k].(held := false) else u[k]
    ensures FreeingUpTo(s, v, flags, i) && AllRingsWhole(s, v, rings)
    ensures !v[i].held && v[i] == Freed(s[i])
  {
    var r := rings[c];
    assert Member(s[i], c, r, i);
    forall k | Within(r, k)
      ensures Matches(flags, s[k]) && v[k] == Freed(s[k]) && !v[k].held
    {
      assert Member(s[k], c, r, k);
    }
    forall d | d in rings && d != c
      ensures Whole(s, v, rings[d])
    {
      assert Separate(rings[d], r) && Whole(s, u, rings[d]);
      assert forall k :: Within(rings[d], k) ==> v[k] == u[k];
    }
  }

  /** After the buffer itself is freed as well, nothing that matches is left up to it. */
  lemma OneFreed(s: seq<Buffer>, u: seq<Buffer>, v: seq<Buffer>, w: seq<Buffer>, flags: Flags, rings: map<nat,
      Ring>, i: nat)
    requires ChannelsOk(s, rings) && FreeingUpTo(s, v, flags, i) && i < |s| - 1 && Matches(flags, s[i])
    requires v[i] == s[i] || v[i] == Freed(s[i])
    requires w == v[i := Freed(v[i])]
    ensures FreeingUpTo(s, w, flags, i + 1)
    ensures AllRingsWhole(s, v, rings) && (v[i].held ==> s[i].cleanup == Dummy) ==> AllRingsWhole(s, w, rings)
  {
    if AllRingsWhole(s, v, rings) && (v[i].held ==> s[i].cleanup == Dummy) {
      forall d | d in rings
        ensures Whole(s, w, rings[d])
      {
        assert RingOk(s, d, rings[d]) && Whole(s, v, rings[d]);
        if Within(rings[d], i) {
          assert Member(s[i], d, rings[d], i);
        }
      }
    }
  }

  /** Rings are sticky: either all of them are gone, or all are untouched. */
  lemma AfterFreeing(s: seq<Buffer>, u: seq<Buffer>, flags: Flags, rings: map<nat, Ring>)
    requires ChannelsOk(s, rings) && |s| >= 1 && FreeingUpTo(s, u, flags, |s| - 1)
    requires s[|s| - 1].held && s[|s| - 1].secondary == ERROR_CHANNEL
    ensures ChannelsOk(u, if flags.sticky then map[] else rings)
  {
    if flags.sticky {
      assert forall k :: 0 <= k < |s| && u[k].held && u[k].secondary < SEC_SYSTEM ==> u[k].secondary == ERROR_CHANNEL;
    } else {
      forall d | d in rings
        ensures RingOk(u, d, rings[d])
      {
        assert RingOk(s, d, rings[d]);
      }
      forall i, j | 0 <= i < |u| && 0 <= j < |u| && OnChannel(u[i], u[j])
        ensures i == j
      {
        assert OnChannel(s[i], s[j]);
      }
    }
  }

  /** A buffer of a new run before the ring is closed. */
  ghost function Waiting(i: nat, start: nat, count: byte, c: byte): Buffer
    requires start <= i < start + count as int && c as int < ERROR_CHANNEL
  {
    Linked(i, start, count).(secondary := 99 - c, cleanup := LargeBuffer, sticky := true, lastused := 255)
  }

  /** Buffer `j` when the run has been prepared up to `i`. */
  ghost function Preparing(s: seq<Buffer>, start: nat, count: byte, c: byte, j: nat, i: nat): Buffer
    requires j < |s| && start + count as int <= |s| && i <= start + count as int && c as int < ERROR_CHANNEL
  {
    if start <= j < i then Waiting(j, start, count, c) else WithRun(s, start, count)[j]
  }

  /** A buffer of a new ring: the last one ends it, the first one is active. */
  ghost function RingBuffer(i: nat, start: nat, count: byte, c: byte): Buffer
    requires start <= i < start + count as int && c as int < ERROR_CHANNEL
  {
    Waiting(i, start, count, c).(sendeoi := i == start + count as int - 1, secondary := if i == start then c else 99 - c)
  }

  lemma MadeRing(s: seq<Buffer>, s': seq<Buffer>, start: nat, c: byte, count: byte)
    requires c as int < ERROR_CHANNEL && count > 0 && start + count as int < |s| && |s'| == |s|
    requires forall i :: 0 <= i < |s| ==> s'[i] == if start <= i < start + count as int then RingBuffer(i, start, count, c) else s[i]
    ensures RingOk(s', c, Ring(start, count, 0))
  {
  }

  /** The buffers that a channel is open with. */
  ghost predicate UsedBy(s: seq<Buffer>, rings: map<nat, Ring>, c: byte, k: int)
    requires 0 <= k < |s|
  {
    (c as nat in rings && Within(rings[c as nat], k)) || (s[k].held && s[k].secondary == c)
  }

  lemma NobodyThere(s: seq<Buffer>, c: byte)
    requires FirstWith(s, c, None)
    ensures forall k :: 0 <= k < |s| && s[k].held ==> s[k].secondary != c
  {
  }

  /** A channel is held by the active buffer of its ring, or by a buffer outside all rings. */
  lemma Holder(s: seq<Buffer>, rings: map<nat, Ring>, c: nat, b: nat)
    requires ChannelsOk(s, rings) && c < ERROR_CHANNEL && FirstWith(s, c, Some(b))
    ensures b < |s| && s[b].held && s[b].secondary as int == c
    ensures if c in rings then RingOk(s, c, rings[c]) && Within(rings[c], b) && Member(s[b], c, rings[c], b)
                              && (rings[c].size > 1 ==> s[b].cleanup == LargeBuffer)
                              && s[b].first == Some(rings[c].start)
            else s[b].cleanup == Dummy && !InSomeRing(rings, b)
  {
    hide OneEach, ChainsInRings;
    if c in rings {
      ActiveFoundHere(s, rings, c, b);
    } else {
      forall d | d in rings
        ensures !Within(rings[d], b)
      {
        OtherNumber(s, d, rings[d], b);
      }
    }
  }

  lemma OtherNumber(s: seq<Buffer>, d: nat, r: Ring, b: nat)
    requires RingOk(s, d, r) && b < |s| && s[b].secondary < ERROR_CHANNEL && s[b].secondary as int != d
    ensures !Within(r, b)
  {
  }

  lemma ActiveFoundHere(s: seq<Buffer>, rings: map<nat, Ring>, c: nat, b: nat)
    requires ChannelsOk(s, rings) && c in rings && c < ERROR_CHANNEL && FirstWith(s, c, Some(b))
    ensures b == rings[c].start + rings[c].cur && RingOk(s, c, rings[c]) && Member(s[b], c, rings[c], b)
  {
    ActiveFound(s, rings, c, Some(b));
    assert RingOk(s, c, rings[c]);
  }

  /** What held the channel was freed. */
  lemma HolderGone(s: seq<Buffer>, s': seq<Buffer>, rings: map<nat, Ring>, c: nat, b: nat)
    requires ChannelsOk(s, rings) && c < ERROR_CHANNEL && |s'| == |s| && b < |s| && s[b].held
      && s[b].secondary as int == c
    requires if c in rings then Within(rings[c], b)
        && forall k :: 0 <= k < |s| ==> if Within(rings[c], k) then !s'[k].held else s'[k] == s[k]
             else !InSomeRing(rings, b) && s' == s[b := s[b].(held := false)]
    ensures ChannelsOk(s', rings - {c})
    ensures forall k :: 0 <= k < |s| ==> if UsedBy(s, rings, c as byte, k) then !s'[k].held else s'[k] == s[k]
    ensures forall k :: 0 <= k < |s| && s'[k].held ==> s'[k].secondary as int != c
  {
    assert forall k :: 0 <= k < |s| && OnChannel(s[k], s[b]) ==> k == b;
    if c in rings {
      hide ChannelsOk, OneEach;
      RingGone(s, s', rings, c);
    } else {
      LoneGone(s, s', rings, b);
      assert rings - {c} == rings;
    }
  }

  /** A buffer outside all rings was freed. */
  lemma LoneGone(s: seq<Buffer>, s': seq<Buffer>, rings: map<nat, Ring>, b: nat)
    requires ChannelsOk(s, rings) && b < |s| && !InSomeRing(rings, b) && s' == s[b := s[b].(held := false)]
    ensures ChannelsOk(s', rings)
  {
    forall d | d in rings
      ensures RingOk(s', d, rings[d])
    {
      assert RingOk(s, d, rings[d]) && !Within(rings[d], b);
    }
    forall i, j | 0 <= i < |s| && 0 <= j < |s| && OnChannel(s'[i], s'[j])
      ensures i == j
    {
      assert OnChannel(s[i], s[j]);
    }
  }

  lemma CycleOne(n: nat)
    ensures n % 1 == 0
  {
  }

  lemma CycleFrom(k: nat, size: nat)
    requires k < size
    ensures Cycle(k + 1, size) == if k == size - 1 then 0 else k + 1
  {
    CycleIsModulo(k, size);
    RemainderIs(k, size, 0, k);
  }

  lemma RingThere(s: seq<Buffer>, rings: map<nat, Ring>, c: nat)
    requires ChannelsOk(s, rings) && c in rings && c < ERROR_CHANNEL
    ensures RingOk(s, c, rings[c])
      && Member(s[rings[c].start + rings[c].cur], c, rings[c], rings[c].start + rings[c].cur)
  {
  }

  lemma ActiveThere(s: seq<Buffer>, rings: map<nat, Ring>, c: nat)
    requires ChannelsOk(s, rings) && c < ERROR_CHANNEL && FirstWith(s, c, None)
    ensures c !in rings
  {
    if c in rings {
      ActiveFound(s, rings, c, None);
    }
  }

  /** Renaming the old active member and the new one moves the ring on. */
  lemma RingMoved(s: seq<Buffer>, s': seq<Buffer>, c: nat, r: Ring, to: nat)
    requires RingOk(s, c, r) && to < r.size && |s'| == |s|
    requires forall i :: 0 <= i < |s| && i != r.start + r.cur && i != r.start + to ==> s'[i] == s[i]
    requires to != r.cur ==> s'[r.start + r.cur] == s[r.start + r.cur].(secondary := s'[r.start + r.cur].secondary)
                             && s'[r.start + r.cur].secondary as int == SEC_CHAIN - c
    requires var b := s'[r.start + to];
      b == s[r.start + to].(secondary := b.secondary, position := b.position, mustflush := b.mustflush) && b.secondary as int == c
    ensures RingOk(s', c, Moved(r, to))
  {
    forall i: nat {:trigger s'[i]} | Within(r, i)
      ensures Member(s'[i], c, Moved(r, to), i)
    {
      assert Member(s[i], c, r, i);
    }
  }
}