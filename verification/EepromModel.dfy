/**
 The EEPROM file system as its users may think of it: a map from names to bytes, so many free sectors and directory
 entries, and what each handle is used for. Every command has one reply and one outcome.
 */
module EepromModel {
  import opened Bits
  import opened Common
  import opened EepromLayout
  import opened EepromStructure
  import opened EepromFs

  // ----- how many sectors and entries bytes take -----

  /** The sectors of `z` bytes that `n` bytes take. */
  function SectorsFor(z: nat, n: nat): nat {
    if z == 0 || n == 0 then 0 else if n <= z then 1 else 1 + SectorsFor(z, n - z)
  }

  /** The entries that list `k` sectors; the first one lists fewer than the others. */
  function EntriesFor(k: nat): nat {
    if k <= NAME_SECTORS then 1 else 1 + (k - NAME_SECTORS + LIST_SECTORS - 1) / LIST_SECTORS
  }

  lemma {:induction false} SectorsAre(z: nat, k: nat, n: nat)
    requires z > 0 && SizeEndsIn(z, k, n)
    ensures SectorsFor(z, n) == k
  {
    if k > 0 {
      TimesGrow(z, 0, k - 1);
      if k > 1 {
        TimesGrow(z, 1, k - 1);
        SectorsAre(z, k - 1, n - z);
      }
    }
  }

  lemma {:induction false} SectorsHold(z: nat, n: nat)
    requires z > 0
    ensures SizeEndsIn(z, SectorsFor(z, n), n) && n <= Times(z, SectorsFor(z, n))
  {
    if n > z {
      SectorsHold(z, n - z);
    }
  }

  /** `k` sectors are listed in `c` entries, none of which could be left out. */
  ghost predicate ListedIn(c: nat, k: nat) {
    c >= 1 && (c == 1 || Base(c - 1) < k) && k <= Base(c)
  }

  lemma EntriesAre(c: nat, k: nat)
    requires ListedIn(c, k)
    ensures EntriesFor(k) == c
  {
  }

  lemma EntriesHold(k: nat)
    ensures ListedIn(EntriesFor(k), k)
  {
  }

  /** How many sectors a file of `k` sectors can get. */
  function Addable(free: nat, entries: nat, k: nat): nat {
    EntriesHold(k);
    Least(free, Base(EntriesFor(k) + entries) - k)
  }

  /** How many of `len` bytes a file of `n` bytes can get. */
  function Accepted(z: nat, free: nat, entries: nat, n: nat, len: nat): (a: nat)
    requires z > 0
    ensures a <= len
  {
    var k := SectorsFor(z, n);
    SectorsHold(z, n);
    TimesGrow(z, k, k + Addable(free, entries, k));
    Least(len, Times(z, k + Addable(free, entries, k)) - n)
  }

  /** What is said if not all of them fit: sectors are looked for before entries. */
  function Refusal(z: nat, free: nat, entries: nat, n: nat, len: nat): Error
    requires z > 0
  {
    EntriesHold(SectorsFor(z, n));
    if Accepted(z, free, entries, n, len) == len then Ok
    else if free <= Base(EntriesFor(SectorsFor(z, n)) + entries) - SectorsFor(z, n) then DiskFull
    else DirFull
  }

  /**
   A write that took what it needed and stopped at a sector boundary only when something ran out has accepted
   exactly that many bytes.
   */
  lemma AcceptedIs(z: nat, free: nat, entries: nat, k: nat, c: nat, n: nat, len: nat,
                   free': nat, entries': nat, k': nat, c': nat, w: nat, err: Error)
    requires z > 0 && w <= len && SizeEndsIn(z, k, n) && SizeEndsIn(z, k', n + w) && ListedIn(c, k) && ListedIn(c', k')
    requires free' + k' == free + k && entries' + c' == entries + c
    requires err == Ok || err == DiskFull || err == DirFull
    requires if err == Ok then w == len else w < len && n + w == Times(z, k')
    requires (err == DiskFull ==> free' == 0) && (err == DirFull ==> free' > 0 && entries' == 0 && k' == Base(c'))
    ensures w == Accepted(z, free, entries, n, len) && err == Refusal(z, free, entries, n, len)
    ensures free' + SectorsFor(z, n + w) == free + SectorsFor(z, n)
    ensures entries' + EntriesFor(SectorsFor(z, n + w)) == entries + EntriesFor(SectorsFor(z, n))
  {
    hide Times, SizeEndsIn;
    SectorsAre(z, k, n);
    SectorsAre(z, k', n + w);
    EntriesAre(c, k);
    EntriesAre(c', k');
    SectorsHold(z, n + w);
    assert k' <= k + Addable(free, entries, k) by {
      assert k' <= Base(c') <= Base(c + entries);
    }
    TimesGrow(z, k', k + Addable(free, entries, k));
  }

  // ----- the model -----

  /** A reader has what was recorded of the file when it was opened; a writer knows how often in a row it got no entry. */
  datatype User =
    | Shut | Writing(name: seq<byte>, done: seq<byte>, refused: nat) | Reading(name: seq<byte>, data: seq<byte>, pos: nat)

  /** How many sectors each file has, and how many sectors and entries are left. */
  datatype Room = Room(sectors: map<seq<byte>, nat>, free: nat, entries: nat)

  /** The recorded bytes of each file, what the handles are used for, and the room there is. */
  datatype Model = Model(files: map<seq<byte>, seq<byte>>, users: seq<User>, room: Room)

  datatype Command =
    | Create(slot: nat, name: seq<byte>) | OpenRead(slot: nat, name: seq<byte>)
    | Put(slot: nat, data: seq<byte>) | Get(slot: nat, length: nat) | CloseFile(slot: nat)
    | Rename(oldname: seq<byte>, newname: seq<byte>) | Delete(name: seq<byte>)

  datatype Reply = Reply(err: Error, count: nat, out: seq<byte>)

  predicate Uses(u: User, name: seq<byte>) { !u.Shut? && u.name == name }

  predicate AnyUses(users: seq<User>, name: seq<byte>) {
    exists i :: 0 <= i < |users| && Uses(users[i], name)
  }

  /** After so many refusals the slot number in a handle may start over. */
  const REFUSAL_LIMIT := 225

  /**
   What is asked of the caller: names have their length, a handle that is not open is not closed, a file in use
   is not deleted, and a write that gets no directory entry is not repeated for ever.
   */
  predicate Allowed(m: Model, c: Command) {
    match c
    case Create(i, name) => i < |m.users| && |name| == NAME_LENGTH
    case OpenRead(i, name) => i < |m.users| && |name| == NAME_LENGTH
    case Put(i, data) => i < |m.users| && (m.users[i].Writing? && data != [] ==> m.users[i].refused < REFUSAL_LIMIT)
    case Get(i, n) => i < |m.users|
    case CloseFile(i) => i < |m.users| && !m.users[i].Shut?
    case Rename(o, n) => |o| == |n| == NAME_LENGTH
    case Delete(name) => |name| == NAME_LENGTH && !AnyUses(m.users, name)
  }

  function Renamed(u: User, o: seq<byte>, n: seq<byte>): User {
    match u
    case Shut => Shut
    case Writing(name, done, refused) => Writing(if name == o then n else name, done, refused)
    case Reading(name, data, pos) => Reading(if name == o then n else name, data, pos)
  }

  function AllRenamed(us: seq<User>, o: seq<byte>, n: seq<byte>): (r: seq<User>)
    ensures |r| == |us|
  {
    seq(|us|, i requires 0 <= i < |us| => Renamed(us[i], o, n))
  }

  function SectorCount(room: Room, name: seq<byte>): nat {
    if name in room.sectors then room.sectors[name] else 0
  }

  /** `a` more bytes for a file of `n` bytes. */
  function RoomAfter(z: nat, room: Room, name: seq<byte>, n: nat, a: nat): Room {
    var k, k' := SectorsFor(z, n), SectorsFor(z, n + a);
    Room(room.sectors[name := k'], MinusUpTo(room.free, k' - k), MinusUpTo(room.entries, EntriesFor(k') - EntriesFor(k)))
  }

  function MinusUpTo(a: nat, b: int): nat { if b <= a then a - b else 0 }

  /** How often in a row a writer has been refused an entry. */
  function Refused(was: nat, err: Error, a: nat): nat {
    if err == DirFull then (if a == 0 then was + 1 else 1) else if a == 0 then was else 0
  }

  /** The one reply to a command, and what becomes of files, handles and room. */
  function Outcome(z: nat, m: Model, c: Command): (Reply, Model)
    requires z > 0 && Allowed(m, c)
  {
    match c
    case Create(i, name) =>
      var m0 := m.(users := m.users[i := Shut]);
      if name in m.files then (Reply(FileExists, 0, []), m0)
      else if m.room.entries == 0 then (Reply(DirFull, 0, []), m0)
      else
        (Reply(Ok, 0, []),
         Model(m.files[name := []], m.users[i := Writing(name, [], 0)],
               Room(m.room.sectors[name := 0], m.room.free, m.room.entries - 1)))
    case OpenRead(i, name) =>
      if name in m.files then (Reply(Ok, 0, []), m.(users := m.users[i := Reading(name, m.files[name], 0)]))
      else (Reply(FileNotFound, 0, []), m.(users := m.users[i := Shut]))
    case Put(i, data) =>
      if !m.users[i].Writing? then (Reply(Invalid, 0, []), m)
      else
        var u := m.users[i];
        var a := Accepted(z, m.room.free, m.room.entries, |u.done|, |data|);
        var err := Refusal(z, m.room.free, m.room.entries, |u.done|, |data|);
        (Reply(err, a, []),
         Model(m.files, m.users[i := Writing(u.name, u.done + data[..a], Refused(u.refused, err, a))],
               RoomAfter(z, m.room, u.name, |u.done|, a)))
    case Get(i, n) =>
      if !m.users[i].Reading? || m.users[i].pos > |m.users[i].data| then (Reply(Invalid, 0, []), m)
      else
        var u := m.users[i];
        var end := Least(u.pos + n, |u.data|);
        (Reply(Ok, end - u.pos, u.data[u.pos..end]), m.(users := m.users[i := Reading(u.name, u.data, end)]))
    case CloseFile(i) =>
      (Reply(Ok, 0, []),
       Model(if m.users[i].Writing? then m.files[m.users[i].name := m.users[i].done] else m.files, m.users[i := Shut], m.room))
    case Rename(o, n) =>
      if n in m.files then (Reply(FileExists, 0, []), m)
      else if o !in m.files then (Reply(FileNotFound, 0, []), m)
      else
        (Reply(Ok, 0, []),
         Model((m.files - {o})[n := m.files[o]], AllRenamed(m.users, o, n),
               m.room.(sectors := (m.room.sectors - {o})[n := SectorCount(m.room, o)])))
    case Delete(name) =>
      if name !in m.files then (Reply(FileNotFound, 0, []), m)
      else
        (Reply(Ok, 0, []),
         Model(m.files - {name}, m.users, Room(m.room.sectors - {name}, m.room.free + SectorCount(m.room, name), m.room.entries)))
  }

  /** Something is refused only when there is none left. */
  lemma RefusedForWant(z: nat, m: Model, c: Command)
    requires z > 0 && Allowed(m, c)
    ensures var (r, m') := Outcome(z, m, c);
      && (r.err == DiskFull ==> c.Put? && r.count < |c.data| && m'.room.free == 0)
      && (r.err == DirFull ==> (c.Create? || (c.Put? && r.count < |c.data|)) && m'.room.entries == 0)
  {
    if c.Put? && m.users[c.slot].Writing? {
      RefusedBytes(z, m.room, m.users[c.slot].name, |m.users[c.slot].done|, |c.data|);
    }
  }

  /** A write that is cut short has used up the sectors, or the entries. */
  lemma RefusedBytes(z: nat, room: Room, name: seq<byte>, n: nat, len: nat)
    requires z > 0
    ensures var a := Accepted(z, room.free, room.entries, n, len);
      match Refusal(z, room.free, room.entries, n, len)
      case Ok => a == len
      case DiskFull => a < len && RoomAfter(z, room, name, n, a).free == 0
      case DirFull => a < len && RoomAfter(z, room, name, n, a).entries == 0
      case _ => false
  {
    hide Times, SizeEndsIn;
    var k := SectorsFor(z, n);
    var add := Addable(room.free, room.entries, k);
    SectorsHold(z, n);
    EntriesHold(k);
    TimesGrow(z, k, k + add);
    if Accepted(z, room.free, room.entries, n, len) < len {
      FullSectors(z, k + add, n, k);
      SectorsAre(z, k + add, Times(z, k + add));
      if room.free > Base(EntriesFor(k) + room.entries) - k {
        EntriesAre(EntriesFor(k) + room.entries, k + add);
      }
    }
  }

  lemma FullSectors(z: nat, k: nat, n: nat, k0: nat)
    requires z > 0 && k0 <= k && n <= Times(z, k0)
    ensures SizeEndsIn(z, k, Times(z, k))
  {
    if k > 0 {
      TimesGrow(z, k - 1, k);
    }
  }

  /** Files being written have nothing recorded yet, and one writer. */
  ghost predicate Coherent(m: Model) {
    && (forall i :: 0 <= i < |m.users| && !m.users[i].Shut? ==> m.users[i].name in m.files)
    && (forall i :: 0 <= i < |m.users| && m.users[i].Writing? ==> m.files[m.users[i].name] == [])
    && (forall i, j :: 0 <= i < |m.users| && 0 <= j < |m.users| && i != j && m.users[i].Writing? && Uses(m.users[j], m.users[i].name) ==>
          m.users[j].Reading? && m.users[j].data == [] && m.users[j].pos == 0)
  }

  lemma StaysCoherent(z: nat, m: Model, c: Command)
    requires z > 0 && Allowed(m, c) && Coherent(m)
    ensures Coherent(Outcome(z, m, c).1) && |Outcome(z, m, c).1.users| == |m.users|
  {
    hide Accepted, Refusal, EntriesFor, SectorsFor, RoomAfter, Refused, Coherent, AnyUses;
    match c {
      case Create(i, name) =>
        ShutCoherent(m, i);
        if name !in m.files {
          NewCoherent(m, i, name, Outcome(z, m, c).1.room);
        }
      case OpenRead(i, name) =>
        ShutCoherent(m, i);
        if name in m.files {
          ReaderCoherent(m, i, name);
        }
      case Put(i, data) =>
        if m.users[i].Writing? {
          UsedCoherent(m, Outcome(z, m, c).1, i);
        }
      case Get(i, n) => UsedCoherent(m, Outcome(z, m, c).1, i);
      case CloseFile(i) =>
        ShutCoherent(m, i);
        if m.users[i].Writing? {
          DoneCoherent(m, i);
        }
      case Rename(o, n) =>
        if n !in m.files && o in m.files {
          RenamedCoherent(m, o, n, Outcome(z, m, c).1.room);
        }
      case Delete(name) =>
        if name in m.files {
          UnusedCoherent(m, name, Outcome(z, m, c).1.room);
        }
    }
  }

  lemma ShutCoherent(m: Model, i: nat)
    requires Coherent(m) && i < |m.users|
    ensures Coherent(m.(users := m.users[i := Shut]))
  {
  }

  lemma NewCoherent(m: Model, i: nat, name: seq<byte>, room: Room)
    requires Coherent(m) && i < |m.users| && name !in m.files
    ensures Coherent(Model(m.files[name := []], m.users[i := Writing(name, [], 0)], room))
  {
  }

  lemma ReaderCoherent(m: Model, i: nat, name: seq<byte>)
    requires Coherent(m) && i < |m.users| && name in m.files
    ensures Coherent(m.(users := m.users[i := Reading(name, m.files[name], 0)]))
  {
  }

  lemma DoneCoherent(m: Model, i: nat)
    requires Coherent(m) && i < |m.users| && m.users[i].Writing?
    ensures Coherent(Model(m.files[m.users[i].name := m.users[i].done], m.users[i := Shut], m.room))
  {
    forall j | 0 <= j < |m.users| && j != i && m.users[j].Writing?
      ensures m.users[j].name != m.users[i].name
    {
      assert Uses(m.users[j], m.users[j].name);
    }
  }

  lemma UsedCoherent(m: Model, m': Model, i: nat)
    requires Coherent(m) && i < |m.users| == |m'.users| && m'.files == m.files && m'.users == m.users[i := m'.users[i]]
    requires !m'.users[i].Shut? ==> !m.users[i].Shut? && m'.users[i].name == m.users[i].name && m'.users[i].Writing? == m.users[i].Writing?
    requires m'.users[i].Reading? ==> m'.users[i].data == m.users[i].data && (m.users[i].data == [] ==> m'.users[i].pos == m.users[i].pos)
    ensures Coherent(m')
  {
  }

  lemma RenamedCoherent(m: Model, o: seq<byte>, n: seq<byte>, room: Room)
    requires Coherent(m) && o in m.files && n !in m.files
    ensures Coherent(Model((m.files - {o})[n := m.files[o]], AllRenamed(m.users, o, n), room))
  {
  }

  lemma UnusedCoherent(m: Model, name: seq<byte>, room: Room)
    requires Coherent(m) && !AnyUses(m.users, name)
    ensures Coherent(Model(m.files - {name}, m.users, room))
  {
    forall i | 0 <= i < |m.users| && !m.users[i].Shut?
      ensures m.users[i].name != name
    {
      assert !Uses(m.users[i], name);
    }
  }

  /** Commands one after the other, as long as they are allowed. */
  function Carried(z: nat, m: Model, cmds: seq<Command>): (r: (seq<Reply>, Model))
    requires z > 0
    ensures |r.0| <= |cmds| && (|r.0| < |cmds| ==> !Allowed(r.1, cmds[|r.0|]))
    decreases |cmds|
  {
    if cmds == [] || !Allowed(m, cmds[0]) then ([], m)
    else
      var (reply, m1) := Outcome(z, m, cmds[0]);
      var (replies, m2) := Carried(z, m1, cmds[1..]);
      ([reply] + replies, m2)
  }

  lemma CarriedOn(z: nat, m: Model, cmds: seq<Command>)
    requires z > 0 && cmds != [] && Allowed(m, cmds[0])
    ensures var (r, m1) := Outcome(z, m, cmds[0]);
      Carried(z, m, cmds) == ([r] + Carried(z, m1, cmds[1..]).0, Carried(z, m1, cmds[1..]).1)
  {
  }

  /** With room for the bytes all of them are accepted. */
  lemma RoomEnough(z: nat, free: nat, entries: nat, n: nat, len: nat)
    requires z > 0 && SectorsFor(z, n + len) <= free + SectorsFor(z, n)
    requires EntriesFor(SectorsFor(z, n + len)) <= entries + EntriesFor(SectorsFor(z, n))
    ensures Accepted(z, free, entries, n, len) == len && Refusal(z, free, entries, n, len) == Ok
  {
    hide Times, SizeEndsIn;
    var k, k' := SectorsFor(z, n), SectorsFor(z, n + len);
    SectorsHold(z, n);
    SectorsHold(z, n + len);
    EntriesHold(k);
    EntriesHold(k');
    assert k' <= Base(EntriesFor(k')) <= Base(EntriesFor(k) + entries);
    TimesGrow(z, k', k + Addable(free, entries, k));
  }

  lemma {:induction false} MoreSectors(z: nat, n: nat, n': nat)
    requires n <= n'
    ensures SectorsFor(z, n) <= SectorsFor(z, n')
    decreases n'
  {
    if 0 < z < n {
      MoreSectors(z, n - z, n' - z);
    }
  }

  lemma MoreEntries(k: nat, k': nat)
    requires k <= k'
    ensures EntriesFor(k) <= EntriesFor(k')
  {
  }

  /**
   With room for them, bytes written in two commands to a new file are read back from it in one, whichever handle
   is used and whatever else is there.
   */
  lemma TwoWritesAndRead(z: nat, m: Model, i: nat, name: seq<byte>, a: seq<byte>, b: seq<byte>)
    requires z > 0 && i < |m.users| && |name| == NAME_LENGTH && name !in m.files
    requires SectorsFor(z, |a + b|) <= m.room.free && EntriesFor(SectorsFor(z, |a + b|)) <= m.room.entries
    ensures var cmds := [Create(i, name), Put(i, a), Put(i, b), CloseFile(i), OpenRead(i, name), Get(i, |a + b|)];
      var (replies, m') := Carried(z, m, cmds);
      && |replies| == 6 && replies[5] == Reply(Ok, |a + b|, a + b)
      && name in m'.files && m'.files[name] == a + b
  {
    hide EntriesFor, SectorsFor, Outcome, Carried, Allowed;
    NoSectors(z);
    MoreSectors(z, |a|, |a + b|);
    MoreEntries(0, SectorsFor(z, |a|));
    MoreEntries(SectorsFor(z, |a|), SectorsFor(z, |a + b|));
    CreateGoes(z, m, i, name);
    var m1 := Outcome(z, m, Create(i, name)).1;
    PutGoes(z, m1, i, [], a);
    assert [] + a == a;
    var m2 := Outcome(z, m1, Put(i, a)).1;
    PutGoes(z, m2, i, a, b);
    var m3 := Outcome(z, m2, Put(i, b)).1;
    CloseGoes(z, m3, i);
    var m4 := Outcome(z, m3, CloseFile(i)).1;
    ReadGoes(z, m4, i, name);
    var m5 := Outcome(z, m4, OpenRead(i, name)).1;
    var cmds := [Create(i, name), Put(i, a), Put(i, b), CloseFile(i), OpenRead(i, name), Get(i, |a + b|)];
    CarriedOn(z, m, cmds);
    CarriedOn(z, m1, cmds[1..]);
    CarriedOn(z, m2, cmds[1..][1..]);
    CarriedOn(z, m3, cmds[1..][1..][1..]);
    CarriedOn(z, m4, cmds[1..][1..][1..][1..]);
    CarriedOn(z, m5, cmds[1..][1..][1..][1..][1..]);
    NoneCarried(z, Outcome(z, m5, Get(i, |a + b|)).1);
  }

  lemma NoneCarried(z: nat, m: Model)
    requires z > 0
    ensures Carried(z, m, []) == ([], m)
  {
  }

  lemma CreateGoes(z: nat, m: Model, i: nat, name: seq<byte>)
    requires z > 0 && i < |m.users| && |name| == NAME_LENGTH && name !in m.files && m.room.entries > 0
    ensures Allowed(m, Create(i, name))
    ensures var m' := Outcome(z, m, Create(i, name)).1;
      |m'.users| == |m.users| && m'.users[i] == Writing(name, [], 0) && m'.room.free == m.room.free && m'.room.entries == m.room.entries - 1
  {
  }

  lemma PutGoes(z: nat, m: Model, i: nat, done: seq<byte>, d: seq<byte>)
    requires z > 0 && i < |m.users| && m.users[i].Writing? && m.users[i].done == done && m.users[i].refused == 0
    requires SectorsFor(z, |done + d|) <= m.room.free + SectorsFor(z, |done|)
    requires EntriesFor(SectorsFor(z, |done + d|)) <= m.room.entries + EntriesFor(SectorsFor(z, |done|))
    ensures Allowed(m, Put(i, d))
    ensures var m' := Outcome(z, m, Put(i, d)).1;
      && |m'.users| == |m.users| && m'.users[i] == Writing(m.users[i].name, done + d, 0)
      && m'.room.free >= m.room.free - (SectorsFor(z, |done + d|) - SectorsFor(z, |done|))
      && m'.room.entries >= m.room.entries - (EntriesFor(SectorsFor(z, |done + d|)) - EntriesFor(SectorsFor(z, |done|)))
  {
    hide SectorsFor, EntriesFor, Accepted, Refusal;
    RoomEnough(z, m.room.free, m.room.entries, |done|, |d|);
    assert d[..|d|] == d;
  }

  lemma CloseGoes(z: nat, m: Model, i: nat)
    requires z > 0 && i < |m.users| && m.users[i].Writing?
    ensures Allowed(m, CloseFile(i))
    ensures var m' := Outcome(z, m, CloseFile(i)).1;
      && |m'.users| == |m.users| && m.users[i].name in m'.files && m'.files[m.users[i].name] == m.users[i].done
  {
  }

  /** A file that is there is read from its beginning. */
  lemma ReadGoes(z: nat, m: Model, i: nat, name: seq<byte>)
    requires z > 0 && i < |m.users| && |name| == NAME_LENGTH && name in m.files
    ensures Allowed(m, OpenRead(i, name))
    ensures var m1 := Outcome(z, m, OpenRead(i, name)).1;
      && Allowed(m1, Get(i, |m.files[name]|))
      && var (r, m2) := Outcome(z, m1, Get(i, |m.files[name]|));
      r == Reply(Ok, |m.files[name]|, m.files[name]) && m2.files == m.files
  {
  }

  lemma NoSectors(z: nat)
    ensures SectorsFor(z, 0) == 0 && EntriesFor(0) == 1
  {
  }
}
