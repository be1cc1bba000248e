/**
 Sessions with a disk image: any sequence of commands on any number of open buffers does to the image what it
 does to a plain map from directory slots to names, types, times and bytes.
 */
module DxxSession {
  import opened Bits
  import opened Common
  import opened DxxGeometry
  import opened DxxBam
  import opened DxxDrive
  import opened DxxAlloc
  import opened DxxState
  import opened DxxLayout
  import opened DxxFrames
  import opened DxxVolume
  import opened DxxFiles
  import opened DxxFormat
  import opened DxxWrite
  import opened DxxRead
  import opened DxxRuns

  // ----- the simple picture -----

  /** What a buffer is used for: nothing, or a file that has so many bytes by now. */
  datatype User = Shut | Writing(slot: Slot, done: seq<byte>)

  /** What the directory says of a file: its name and type, the time last written there, and whether it was ever closed. */
  datatype Title = Title(name: seq<byte>, kind: byte, stamp: Stamp, closed: bool)

  /**
   The bytes of each file that is not open, what the buffers are used for, where the files are that were created
   one after the other, and what the directory says of all files.
   */
  datatype Model = Model(files: map<Slot, seq<byte>>, users: seq<User>, made: seq<Slot>, titles: map<Slot, Title>)

  /** Buffers have numbers, and so have files: `file` is made by the command to create that has this number. */
  datatype Command =
    | Create(i: nat, name: seq<byte>, kind: byte, stamp: Stamp) | Reopen(i: nat, file: nat, stamp: Stamp)
    | Put(i: nat, data: seq<byte>) | Close(i: nat, stamp: Stamp)
    | Fetch(file: nat) | Erase(file: nat)

  /** Whether it worked, how many bytes were taken, what was sent, and which file was created. */
  datatype Reply = Reply(ok: bool, count: nat, out: seq<byte>, slot: Slot)

  /** No directory sector has a ninth entry. */
  const NOWHERE := Slot(TS(0, 0), 8)

  predicate InUse(users: seq<User>, slot: Slot) {
    exists i :: 0 <= i < |users| && Uses(users[i], slot)
  }

  predicate Uses(u: User, slot: Slot) { u.Writing? && u.slot == slot }

  function SlotOf(m: Model, file: nat): Slot { if file < |m.made| then m.made[file] else NOWHERE }

  /** A buffer in use is closed before it is used again. */
  function Closed(m: Model, i: nat, stamp: Stamp): (m': Model)
    requires i < |m.users|
    ensures |m'.users| == |m.users| && m'.users[i] == Shut
  {
    if m.users[i].Writing? then
      var slot := m.users[i].slot;
      Model(m.files[slot := Filled(m.users[i].done)], m.users[i := Shut], m.made, Retitled(m.titles, slot, stamp, true))
    else m
  }

  /** A new time for a file, and perhaps the mark of a closed one. */
  function Retitled(titles: map<Slot, Title>, slot: Slot, stamp: Stamp, closing: bool): map<Slot, Title> {
    if slot in titles then titles[slot := titles[slot].(stamp := stamp, closed := closing || titles[slot].closed)] else titles
  }

  /** Only a file that is open is not read, reopened or erased. */
  predicate Allowed(m: Model, c: Command) {
    match c
    case Create(i, name, kind, stamp) => i < |m.users| && kind != 0 && |name| <= NAME_LENGTH
    case Reopen(i, file, stamp) => i < |m.users| && !InUse(Closed(m, i, stamp).users, SlotOf(m, file))
    case Put(i, data) => i < |m.users|
    case Close(i, stamp) => i < |m.users|
    case Fetch(file) => !InUse(m.users, SlotOf(m, file))
    case Erase(file) => !InUse(m.users, SlotOf(m, file))
  }

  /** Without a slot once it is erased. */
  function Forgotten(made: seq<Slot>, slot: Slot): seq<Slot> {
    seq(|made|, k requires 0 <= k < |made| => if made[k] == slot then NOWHERE else made[k])
  }

  /** What a command may reply. Creating may be refused, and so may bytes behind the first ones. */
  predicate Replies(m: Model, c: Command, r: Reply)
    requires Allowed(m, c)
  {
    match c
    case Create(i, name, kind, stamp) => 
      r.ok ==> r.slot !in Closed(m, i, stamp).files && !InUse(Closed(m, i, stamp).users, r.slot) && r.slot != NOWHERE
    case Reopen(i, file, stamp) => r.ok <==> SlotOf(m, file) in Closed(m, i, stamp).files
    case Put(i, data) => if m.users[i].Shut? then !r.ok && r.count == 0 else if r.ok then r.count == |data| else r.count < |data|
    case Close(i, stamp) => r.ok
    case Fetch(file) => if SlotOf(m, file) in m.files then r.ok && r.out == m.files[SlotOf(m, file)] else !r.ok && r.out == []
    case Erase(file) => r.ok <==> SlotOf(m, file) in m.files
  }

  /** What a command, with its reply, makes of the files and buffers. */
  function After(m: Model, c: Command, r: Reply): Model
    requires Allowed(m, c) && Replies(m, c, r)
  {
    match c
    case Create(i, name, kind, stamp) =>
      var m1 := Closed(m, i, stamp);
      if r.ok then
        Model(m1.files, m1.users[i := Writing(r.slot, [])], m1.made + [r.slot], m1.titles[r.slot := Title(name, kind, stamp, false)])
      else m1.(made := m1.made + [NOWHERE])
    case Reopen(i, file, stamp) =>
      var m1, slot := Closed(m, i, stamp), SlotOf(m, file);
      if r.ok then
        Model(m1.files - {slot}, m1.users[i := Writing(slot, m1.files[slot])], m1.made, Retitled(m1.titles, slot, stamp, false))
      else m1
    case Put(i, data) =>
      if m.users[i].Shut? then m
      else
        var u := m.users[i];
        if r.ok then m.(users := m.users[i := Writing(u.slot, u.done + data)])
        else m.(files := m.files[u.slot := u.done + data[..r.count]], users := m.users[i := Shut])
    case Close(i, stamp) => Closed(m, i, stamp)
    case Fetch(file) => m
    case Erase(file) =>
      if r.ok then Erased(m, SlotOf(m, file)) else m
  }

  function Erased(m: Model, slot: Slot): Model {
    Model(m.files - {slot}, m.users, Forgotten(m.made, slot), m.titles - {slot})
  }

  // ----- the image behind it -----

  /** What matters of a buffer. */
  datatype Hand = Hand(dh: Slot, data: Sector, fill: nat, lastused: byte, ts: TS, held: bool, shaped: bool)

  ghost function HandOf(b: FileBuffer): Hand
    reads b
  {
    Hand(b.dh, b.data, b.Fill(), b.lastused, TS(b.track, b.sector), b.held, b.Shaped())
  }

  ghost predicate Seat(L: Layout, slot: Slot, ts: TS) {
    slot in L.files && L.files[slot] != [] && L.files[slot][|L.files[slot]| - 1] == ts && ts.track != 0
  }

  /** The buffer and the sectors stored so far hold the bytes. */
  ghost predicate UserOk(T: Tree, hd: Hand, u: User) {
    && hd.held == u.Writing?
    && (u.Writing? ==>
      && hd.dh == u.slot && hd.shaped && Seat(T.L, u.slot, hd.ts) && Holds(T, u.slot, hd.data, hd.fill, u.done)
      && (if u.done == [] then hd.fill == 2 && hd.lastused == 2 && hd.data[2] == 13 else 2 <= hd.lastused as int == hd.fill - 1))
  }

  ghost predicate FileIs(T: Tree, slot: Slot, bytes: seq<byte>) {
    Contents(T, slot, bytes) && Readable(T, slot)
  }

  /** The files of the image are those of the map and those in use. */
  ghost predicate FilesMatch(T: Tree, m: Model) {
    && (forall s :: s in T.L.files <==> s in m.files || InUse(m.users, s))
    && (forall s :: s in m.files ==> FileIs(T, s, m.files[s]))
    && TitlesMatch(T, m.titles)
  }

  /** The directory entry of each file, open or not, is as the model has it. */
  ghost predicate TitlesMatch(T: Tree, titles: map<Slot, Title>) {
    && (forall s :: s in T.L.files <==> s in titles)
    && (forall s :: s in titles ==> TitleIs(T, s, titles[s]))
  }

  /** The entry has the padded name, the type, with bit 7 set if the file was closed, and the time. */
  ghost predicate TitleIs(T: Tree, slot: Slot, t: Title) {
    && HasEntry(T, slot) && Named(EntryOf(T, slot), t.name) && Stamped(EntryOf(T, slot), t.stamp)
    && forall k: nat :: k < 8 ==> (Bit(EntryOf(T, slot)[2], k) <==> Bit(t.kind, k) || (k == 7 && t.closed))
  }

  lemma OpenedTitle(T: Tree, slot: Slot, name: seq<byte>, kind: byte, ts: TS, stamp: Stamp)
    requires EntryOpened(T, slot, name, kind, ts, stamp)
    ensures TitleIs(T, slot, Title(name, kind, stamp, false))
  {
    hide EntryIn, Bit;
  }

  lemma CompletedTitle(T: Tree, T': Tree, slot: Slot, t: Title, stamp: Stamp)
    requires EntryCompleted(T, T', slot, stamp) && TitleIs(T, slot, t)
    ensures TitleIs(T', slot, t.(stamp := stamp, closed := true))
  {
    hide EntryIn, Bit;
  }

  lemma RetimedTitle(T: Tree, T': Tree, slot: Slot, t: Title, stamp: Stamp)
    requires HasEntry(T, slot) && HasEntry(T', slot) && Retimed(EntryOf(T, slot), EntryOf(T', slot), stamp) && TitleIs(T, slot, t)
    ensures TitleIs(T', slot, t.(stamp := stamp))
  {
    hide EntryIn, Bit;
  }

  lemma GrownTitle(f: Disk, T: Tree, T': Tree, slot: Slot, t: Title)
    requires Grown(f, T, T', slot) && T.L.files[slot] != [] && TitleIs(T, slot, t)
    ensures TitleIs(T', slot, t)
  {
    hide EntryIn, Bit;
    GrownEntry(f, T, T', slot);
  }

  lemma TitleKept(f: Disk, T: Tree, T': Tree, slot: Slot, k: Slot, t: Title)
    requires Sound(f, T) && Step(f, T, T', slot) && k != slot && k in T.L.files && TitleIs(T, k, t)
    ensures TitleIs(T', k, t)
  {
    hide TreeOk, OthersKept, SameSpace, Bit, EntryIn;
    OtherFile(f, T, T', slot, k);
    var e, e' := EntryOf(T, k), EntryOf(T', k);
    assert e'[2..] == e[2..];
    assert forall i :: 2 <= i < 32 ==> e'[i] == e'[2..][i - 2] == e[2..][i - 2] == e[i];
  }

  ghost predicate Coherent(m: Model) {
    && NOWHERE !in m.files && !InUse(m.users, NOWHERE)
    && (forall i :: 0 <= i < |m.users| && m.users[i].Writing? ==> m.users[i].slot !in m.files)
    && (forall i, j :: 0 <= i < j < |m.users| && m.users[i].Writing? ==> !Uses(m.users[j], m.users[i].slot))
  }

  ghost predicate UsersOk(T: Tree, hands: seq<Hand>, users: seq<User>) {
    |hands| == |users| && forall i :: 0 <= i < |users| ==> UserOk(T, hands[i], users[i])
  }

  ghost predicate Refines(f: Disk, T: Tree, hands: seq<Hand>, m: Model) {
    Sound(f, T) && Coherent(m) && FilesMatch(T, m) && UsersOk(T, hands, m.users)
  }

  // ----- what a step about one file leaves alone -----

  lemma FileKept(f: Disk, T: Tree, T': Tree, slot: Slot, k: Slot, bytes: seq<byte>)
    requires Sound(f, T) && Step(f, T, T', slot) && k != slot && FileIs(T, k, bytes)
    ensures FileIs(T', k, bytes)
  {
    hide TreeOk, OthersKept, SameSpace, Ended, Inside, EntryBody;
    ContentsFacts(T, k, bytes);
    OtherFile(f, T, T', slot, k);
    OtherContents(T, T', k, seq(256, _ => 0), 2, bytes);
    ReadableKept(T, T', k);
  }

  lemma ReadableKept(T: Tree, T': Tree, k: Slot)
    requires k in T.L.files && k in T'.L.files && T'.L.files[k] == T.L.files[k]
      && Unaltered(T.st.sec, T'.st.sec, T.L.files[k])
    ensures Readable(T, k) ==> Readable(T', k)
  {
    if n :| n >= 2 && LastByteAt(T, k, n) {
      assert LastByteAt(T', k, n);
    }
  }

  lemma UserKept(f: Disk, T: Tree, T': Tree, slot: Slot, hd: Hand, u: User)
    requires Sound(f, T) && Step(f, T, T', slot) && UserOk(T, hd, u) && !Uses(u, slot)
    ensures UserOk(T', hd, u)
  {
    hide TreeOk, OthersKept, SameSpace, Ended, Holds, EntryBody;
    if u.Writing? {
      OtherFile(f, T, T', slot, u.slot);
      OtherContents(T, T', u.slot, hd.data, hd.fill, u.done);
    }
  }

  /** After a step about one file, and about the buffer `i` it is open in, the image is again what the model says. */
  lemma StepRefines(f: Disk, T: Tree, T': Tree, hands: seq<Hand>, m: Model, slot: Slot, i: nat,
      hands': seq<Hand>, m': Model)
    requires Refines(f, T, hands, m) && Step(f, T, T', slot) && Coherent(m')
    requires |m'.users| == |m.users| && |hands'| == |hands|
    requires forall j :: 0 <= j < |m.users| && j != i ==> m'.users[j] == m.users[j] && hands'[j] == hands[j] && !Uses(m.users[j], slot)
    requires i < |m.users| ==> UserOk(T', hands'[i], m'.users[i]) && (m'.users[i].Writing? ==> m'.users[i].slot == slot)
                               && (m.users[i].Writing? ==> m.users[i].slot == slot)
    requires forall s :: s != slot ==> (s in m'.files <==> s in m.files) && (s in m.files ==> m'.files[s] == m.files[s])
    requires slot in m'.files ==> FileIs(T', slot, m'.files[slot])
    requires slot in T'.L.files <==> slot in m'.files || (i < |m.users| && m'.users[i].Writing?)
    requires TitleChanges(T', m.titles, m'.titles, slot)
    ensures Refines(f, T', hands', m')
  {
    hide Sound, SameSpace, UserOk, FileIs, SectorsKept, EntriesKept, Coherent, TitlesMatch, TitleChanges;
    TitlesAfter(f, T, T', slot, m.titles, m'.titles);
    forall j | 0 <= j < |m.users| && j != i
      ensures UserOk(T', hands'[j], m'.users[j])
    {
      UserKept(f, T, T', slot, hands[j], m.users[j]);
    }
    forall s | s in m'.files
      ensures FileIs(T', s, m'.files[s])
    {
      if s != slot {
        FileKept(f, T, T', slot, s, m.files[s]);
      }
    }
    forall s
      ensures s in T'.L.files <==> s in m'.files || InUse(m'.users, s)
    {
      UseChanges(m, m', slot, i, s);
    }
  }

  /** The one file's entry is as it is to be, if it has one, and no other is to change. */
  ghost predicate TitleChanges(T': Tree, titles: map<Slot, Title>, titles': map<Slot, Title>, slot: Slot) {
    && (forall s :: s != slot ==> (s in titles' <==> s in titles) && (s in titles ==> titles'[s] == titles[s]))
    && (slot in T'.L.files <==> slot in titles') && (slot in titles' ==> TitleIs(T', slot, titles'[slot]))
  }

  lemma TitlesAfter(f: Disk, T: Tree, T': Tree, slot: Slot, titles: map<Slot, Title>, titles': map<Slot, Title>)
    requires Sound(f, T) && Step(f, T, T', slot) && TitlesMatch(T, titles) && TitleChanges(T', titles, titles', slot)
    ensures TitlesMatch(T', titles')
  {
    hide Sound, SameSpace, SectorsKept, EntriesKept, TitleIs;
    forall s | s in titles'
      ensures TitleIs(T', s, titles'[s])
    {
      if s != slot {
        TitleKept(f, T, T', slot, s, titles[s]);
      }
    }
  }

  lemma UseChanges(m: Model, m': Model, slot: Slot, i: nat, s: Slot)
    requires |m'.users| == |m.users|
    requires forall j :: 0 <= j < |m.users| && j != i ==> m'.users[j] == m.users[j] && !Uses(m.users[j], slot)
    requires i < |m.users| ==> (m'.users[i].Writing? ==> m'.users[i].slot == slot) && (m.users[i].Writing? ==> m.users[i].slot == slot)
    ensures s != slot ==> (InUse(m'.users, s) <==> InUse(m.users, s))
    ensures InUse(m'.users, slot) <==> i < |m.users| && m'.users[i].Writing?
  {
    if j :| 0 <= j < |m.users| && Uses(m.users[j], s) && s != slot {
      assert Uses(m'.users[j], s);
    }
    if j :| 0 <= j < |m.users| && Uses(m'.users[j], s) && s != slot {
      assert Uses(m.users[j], s);
    }
    if i < |m.users| && m'.users[i].Writing? {
      assert Uses(m'.users[i], slot);
    }
  }

  lemma ClosedCoherent(m: Model, i: nat, stamp: Stamp)
    requires Coherent(m) && i < |m.users|
    ensures Coherent(Closed(m, i, stamp))
  {
    hide Filled;
    if m.users[i].Writing? {
      assert Uses(m.users[i], m.users[i].slot);
    }
    StillNowhere(m.users, i, Shut);
  }

  lemma StillNowhere(users: seq<User>, i: nat, u: User)
    requires i < |users| && !InUse(users, NOWHERE) && !Uses(u, NOWHERE)
    ensures !InUse(users[i := u], NOWHERE)
  {
    var users' := users[i := u];
    forall j | 0 <= j < |users'|
      ensures !Uses(users'[j], NOWHERE)
    {
      assert !Uses(users[j], NOWHERE);
    }
  }

  /** Buffer `i`, which no file was open in, is used for a file that is in no other use. */
  lemma UseCoherent(m: Model, i: nat, slot: Slot, done: seq<byte>, made: seq<Slot>, titles: map<Slot, Title>)
    requires Coherent(m) && i < |m.users| && !InUse(m.users, slot) && slot != NOWHERE
    ensures Coherent(Model(m.files - {slot}, m.users[i := Writing(slot, done)], made, titles))
  {
    var users := m.users[i := Writing(slot, done)];
    forall j | 0 <= j < |users| && j != i
      ensures !Uses(users[j], slot)
    {
      assert !Uses(m.users[j], slot);
    }
    StillNowhere(m.users, i, Writing(slot, done));
  }

  /** Buffer `i` is used for no file any more, or for the same one as before. */
  lemma SameUseCoherent(m: Model, m': Model, i: nat)
    requires Coherent(m) && i < |m.users| == |m'.users| && m.users[i].Writing? && m'.users == m.users[i := m'.users[i]]
    requires m'.users[i].Writing? ==> m'.users[i].slot == m.users[i].slot && m'.files == m.files
    requires m'.users[i].Shut? ==> m'.files.Keys == m.files.Keys + {m.users[i].slot}
    ensures Coherent(m')
  {
    assert Uses(m.users[i], m.users[i].slot);
    StillNowhere(m.users, i, m'.users[i]);
  }

  /** No file is ever both open and closed, and no two buffers write one file. */
  lemma StaysCoherent(m: Model, c: Command, r: Reply)
    requires Allowed(m, c) && Coherent(m) && Replies(m, c, r)
    ensures Coherent(After(m, c, r)) && |After(m, c, r).users| == |m.users|
  {
    hide Filled, Coherent, InUse, Forgotten, Retitled;
    match c {
      case Create(i, name, kind, stamp) =>
        var m1 := Closed(m, i, stamp);
        ClosedCoherent(m, i, stamp);
        MadeCoherent(m1, m1.made + [NOWHERE]);
        if r.ok {
          UseCoherent(m1, i, r.slot, [], m1.made + [r.slot], m1.titles[r.slot := Title(name, kind, stamp, false)]);
          assert m1.files - {r.slot} == m1.files;
        }
      case Reopen(i, file, stamp) =>
        var m1, slot := Closed(m, i, stamp), SlotOf(m, file);
        ClosedCoherent(m, i, stamp);
        NotNowhere(m1, slot);
        if r.ok {
          UseCoherent(m1, i, slot, m1.files[slot], m.made, Retitled(m1.titles, slot, stamp, false));
        }
      case Put(i, data) =>
        if m.users[i].Writing? {
          SameUseCoherent(m, After(m, c, r), i);
        }
      case Close(i, stamp) => ClosedCoherent(m, i, stamp);
      case Fetch(file) =>
      case Erase(file) => ErasedCoherent(m, SlotOf(m, file));
    }
  }

  lemma MadeCoherent(m: Model, made: seq<Slot>)
    requires Coherent(m)
    ensures Coherent(m.(made := made))
  {
  }

  lemma NotNowhere(m: Model, slot: Slot)
    requires Coherent(m)
    ensures slot in m.files ==> slot != NOWHERE
  {
  }

  lemma ErasedCoherent(m: Model, slot: Slot)
    requires Coherent(m)
    ensures Coherent(Erased(m, slot))
  {
    hide Forgotten;
  }

  /** No other buffer is used for the file that buffer `i` is used for. */
  lemma OnlyUser(m: Model, i: nat)
    requires Coherent(m) && i < |m.users| && m.users[i].Writing?
    ensures m.users[i].slot !in m.files && forall j :: 0 <= j < |m.users| && j != i ==> !Uses(m.users[j], m.users[i].slot)
  {
  }

  lemma NoUser(m: Model, slot: Slot)
    requires Coherent(m) && slot in m.files
    ensures forall j :: 0 <= j < |m.users| ==> !Uses(m.users[j], slot)
  {
  }

  lemma NothingDone(f: Disk, T: Tree, slot: Slot)
    requires Sound(f, T)
    ensures Step(f, T, T, slot)
  {
    hide Sound;
  }

  // ----- carrying commands out -----

  ghost function Hands(bufs: seq<FileBuffer>): (r: seq<Hand>)
    reads bufs
    ensures |r| == |bufs|
  {
    seq(|bufs|, i requires 0 <= i < |bufs| reads bufs => HandOf(bufs[i]))
  }

  ghost predicate Different(bufs: seq<FileBuffer>) {
    forall i, j :: 0 <= i < j < |bufs| ==> bufs[i] != bufs[j]
  }

  /** The image and the buffers are what the model says. */
  ghost predicate Together(vol: Volume, bufs: seq<FileBuffer>, m: Model)
    reads vol, vol.drive, bufs
  {
    vol.Valid() && |bufs| == |m.users| && Different(bufs) && Refines(vol.f, TreeOf(vol), Hands(bufs), m)
  }

  /** A slot that no file has. */
  lemma NewSlot(f: Disk, T: Tree, hands: seq<Hand>, m: Model, slot: Slot)
    requires Refines(f, T, hands, m) && slot !in T.L.files
    ensures slot !in m.files && slot !in m.titles && !InUse(m.users, slot) && forall j :: 0 <= j < |m.users| ==> !Uses(m.users[j], slot)
  {
    hide Sound, UsersOk, FileIs;
  }

  lemma NowhereIs(f: Disk, T: Tree)
    requires Sound(f, T)
    ensures NOWHERE !in T.L.files
  {
    hide Sound;
    if NOWHERE in T.L.files {
      SlotFacts(f, T, NOWHERE);
    }
  }

  /** Creates a file in a buffer that is not in use. */
  method DoCreate(vol: Volume, bufs: seq<FileBuffer>, c: Command, ghost m: Model) returns (r: Reply)
    requires c.Create? && Together(vol, bufs, m) && Allowed(m, c) && m.users[c.i].Shut?
    modifies vol, vol.drive, bufs
    ensures Replies(m, c, r) && Together(vol, bufs, After(m, c, r))
    ensures vol.Rest() == old(vol.Rest()) && SameAccount(vol.f, old(TreeOf(vol)), TreeOf(vol))
    ensures !r.ok ==> NoRoom(vol.f, vol.St()) || NoEntryLeft(vol.f, vol.St(), vol.L)
  {
    hide TreeOk, StateOf, Created, Step, DirOnly, NoRoom, FreeOffDir, NoEntryLeft, UsersOk, FilesMatch, Coherent,
      InUse, SameAccount, Holds, TitleIs, EntryOpened;
    var i := c.i;
    ghost var T, hands := TreeOf(vol), Hands(bufs);
    bufs[i].Clear();
    var ok := OpenWrite(vol, c.name, c.kind, c.stamp, bufs[i]);
    if !ok {
      bufs[i].GiveUp();
    }
    assert Hands(bufs) == hands[i := HandOf(bufs[i])];
    r := Reply(ok, 0, [], if ok then bufs[i].dh else NOWHERE);
    NowhereIs(vol.f, T);
    if ok {
      CreateStep(vol.f, T, TreeOf(vol), r.slot, TS(bufs[i].track, bufs[i].sector), c.name, c.kind, c.stamp);
      NewHolds(vol.f, T, TreeOf(vol), r.slot, TS(bufs[i].track, bufs[i].sector), c.name, c.kind, c.stamp, bufs[i].data);
      OpenedTitle(TreeOf(vol), r.slot, c.name, c.kind, TS(bufs[i].track, bufs[i].sector), c.stamp);
      NowhereIs(vol.f, TreeOf(vol));
    } else {
      DirStepIs(vol.f, T, TreeOf(vol), NOWHERE);
      DirFiles(vol.f, T, TreeOf(vol));
      NoRoomAtAll(vol.f, T, TreeOf(vol));
    }
    NewSlot(vol.f, T, hands, m, r.slot);
    StaysCoherent(m, c, r);
    StepRefines(vol.f, T, TreeOf(vol), hands, m, r.slot, i, Hands(bufs), After(m, c, r));
    StepAccount(vol.f, T, TreeOf(vol), r.slot);
  }

  lemma DirFiles(f: Disk, T: Tree, T': Tree)
    requires DirOnly(f, T, T')
    ensures T'.L.files == T.L.files
  {
  }

  /** Opens a file again, in a buffer that is not in use, to write behind its end. */
  method DoReopen(vol: Volume, bufs: seq<FileBuffer>, c: Command, slot: Slot, ghost m: Model) returns (r: Reply)
    requires c.Reopen? && Together(vol, bufs, m) && Allowed(m, c) && m.users[c.i].Shut?
    requires slot == SlotOf(m, c.file) && slot in m.files
    modifies vol, vol.drive, bufs
    ensures Replies(m, c, r) && Together(vol, bufs, After(m, c, r))
    ensures vol.Rest() == old(vol.Rest()) && SameAccount(vol.f, old(TreeOf(vol)), TreeOf(vol))
  {
    hide TreeOk, StateOf, Step, UsersOk, FilesMatch, Coherent, InUse, SameAccount, Holds, EntryTouched, LastByteAt,
      Ended, Inside, TitleIs, Retimed;
    var i := c.i;
    ghost var T, hands := TreeOf(vol), Hands(bufs);
    FileHere(vol.f, T, hands, m, slot);
    TitleHere(vol.f, T, hands, m, slot);
    bufs[i].Clear();
    Append(vol, slot, c.stamp, bufs[i]);
    ReadableByte(T, slot, bufs[i].lastused);
    assert Hands(bufs) == hands[i := HandOf(bufs[i])];
    r := Reply(true, 0, [], slot);
    TouchStep(vol.f, T, TreeOf(vol), slot, c.stamp);
    TouchLayout(T, TreeOf(vol), slot, c.stamp);
    RetimedTitle(T, TreeOf(vol), slot, m.titles[slot], c.stamp);
    NoUser(m, slot);
    StaysCoherent(m, c, r);
    StepRefines(vol.f, T, TreeOf(vol), hands, m, slot, i, Hands(bufs), After(m, c, r));
    StepAccount(vol.f, T, TreeOf(vol), slot);
  }

  lemma FileHere(f: Disk, T: Tree, hands: seq<Hand>, m: Model, slot: Slot)
    requires Refines(f, T, hands, m) && slot in m.files
    ensures FileIs(T, slot, m.files[slot]) && slot in T.L.files && T.L.files[slot] != []
      && Ended(T.st.sec, T.L.files[slot])
    ensures Inside(T.st.sec, T.L.files[slot]) && FileBytes(T.st.sec, T.L.files[slot]) == m.files[slot]
    ensures Sent(T.st.sec, T.L.files[slot]) == m.files[slot] != []
  {
    hide Sound, UsersOk, Sent, Readable;
    ReadableSent(T, slot, m.files[slot]);
    ReadableBytes(T, slot, m.files[slot]);
  }

  lemma TitleHere(f: Disk, T: Tree, hands: seq<Hand>, m: Model, slot: Slot)
    requires Refines(f, T, hands, m) && slot in T.L.files
    ensures slot in m.titles && TitleIs(T, slot, m.titles[slot])
  {
    hide Sound, UsersOk, FileIs, TitleIs;
  }

  lemma ReadableBytes(T: Tree, slot: Slot, bytes: seq<byte>)
    requires Contents(T, slot, bytes) && Readable(T, slot)
    ensures bytes != []
  {
    var chain := T.L.files[slot];
    ReadableByte(T, slot, T.st.sec[chain[|chain| - 1]][1] as int);
  }

  lemma UserHere(f: Disk, T: Tree, hands: seq<Hand>, m: Model, i: nat)
    requires Refines(f, T, hands, m) && i < |m.users|
    ensures UserOk(T, hands[i], m.users[i])
  {
    hide Sound, FilesMatch, UserOk;
  }

  /** Stores bytes in an open file. */
  method DoPut(vol: Volume, bufs: seq<FileBuffer>, c: Command, ghost m: Model) returns (r: Reply)
    requires c.Put? && Together(vol, bufs, m) && Allowed(m, c) && m.users[c.i].Writing?
    modifies vol, vol.drive, bufs
    ensures Replies(m, c, r) && Together(vol, bufs, After(m, c, r))
    ensures vol.Rest() == old(vol.Rest()) && SameAccount(vol.f, old(TreeOf(vol)), TreeOf(vol))
    ensures !r.ok ==> NoneLeftFor(vol.f, old(TreeOf(vol)), TreeOf(vol), m.users[c.i].slot)
  {
    hide TreeOk, StateOf, Step, UsersOk, FilesMatch, Coherent, InUse, SameAccount, Holds, Grown, NoneLeft,
      LastByteAt, Contents, TitleIs;
    var i := c.i;
    ghost var T, hands, u := TreeOf(vol), Hands(bufs), m.users[i];
    UserHere(vol.f, T, hands, m, i);
    TitleHere(vol.f, T, hands, m, u.slot);
    OnlyUser(m, i);
    var err, n := Listen(vol, bufs[i], c.data, u.done);
    assert Hands(bufs) == hands[i := HandOf(bufs[i])];
    GrowStep(vol.f, T, TreeOf(vol), u.slot);
    GrownTitle(vol.f, T, TreeOf(vol), u.slot, m.titles[u.slot]);
    r := Reply(!err, n, [], bufs[i].dh);
    if err {
      ReadableByte(TreeOf(vol), u.slot, 255);
      ContentsFacts(TreeOf(vol), u.slot, u.done + c.data[..n]);
    } else if c.data == [] {
      assert u.done + c.data == u.done;
    }
    StaysCoherent(m, c, r);
    StepRefines(vol.f, T, TreeOf(vol), hands, m, u.slot, i, Hands(bufs), After(m, c, r));
    StepAccount(vol.f, T, TreeOf(vol), u.slot);
  }

  /** Nothing is free where the file that ended where it did could have grown to. */
  ghost predicate NoneLeftFor(f: Disk, T: Tree, T': Tree, slot: Slot) {
    slot in T.L.files && T.L.files[slot] != [] && NoneLeft(f, T'.st, LastSector(T, slot).track)
  }

  /** Closes an open file. */
  method DoClose(vol: Volume, bufs: seq<FileBuffer>, i: nat, stamp: Stamp, ghost m: Model)
    requires Together(vol, bufs, m) && i < |m.users| && m.users[i].Writing?
    modifies vol, vol.drive, bufs
    ensures Together(vol, bufs, Closed(m, i, stamp))
    ensures vol.Rest() == old(vol.Rest()) && SameAccount(vol.f, old(TreeOf(vol)), TreeOf(vol))
  {
    hide TreeOk, StateOf, Step, UsersOk, FilesMatch, Coherent, InUse, SameAccount, Holds, LastByteAt, Contents,
      Counts, SizeRight, Filled, TitleIs, EntryCompleted;
    ghost var T, hands, u := TreeOf(vol), Hands(bufs), m.users[i];
    UserHere(vol.f, T, hands, m, i);
    TitleHere(vol.f, T, hands, m, u.slot);
    OnlyUser(m, i);
    FilledHolds(T, u.slot, bufs[i].data, bufs[i].Fill(), bufs[i].lastused as int + 1, u.done);
    NothingDone(vol.f, T, u.slot);
    CloseFile(vol, bufs[i], stamp, T, Filled(u.done));
    assert Hands(bufs) == hands[i := HandOf(bufs[i])];
    ReadableByte(TreeOf(vol), u.slot, old(bufs[i].lastused));
    ContentsFacts(TreeOf(vol), u.slot, Filled(u.done));
    CompletedTitle(T, TreeOf(vol), u.slot, m.titles[u.slot], stamp);
    ClosedCoherent(m, i, stamp);
    StepRefines(vol.f, T, TreeOf(vol), hands, m, u.slot, i, Hands(bufs), Closed(m, i, stamp));
    StepAccount(vol.f, T, TreeOf(vol), u.slot);
  }

  /** Sends a file that is not open. */
  method DoFetch(vol: Volume, bufs: seq<FileBuffer>, slot: Slot, ghost m: Model) returns (out: seq<byte>)
    requires Together(vol, bufs, m) && slot in m.files
    ensures out == m.files[slot]
  {
    hide TreeOk, StateOf, UsersOk, FilesMatch, Coherent, Sent, Ended, Inside;
    FileHere(vol.f, TreeOf(vol), Hands(bufs), m, slot);
    var err;
    err, out := ReadFile(vol, slot);
  }

  /** Erases a file that is not open. */
  method DoErase(vol: Volume, bufs: seq<FileBuffer>, slot: Slot, ghost m: Model)
    requires Together(vol, bufs, m) && slot in m.files
    modifies vol, vol.drive
    ensures Together(vol, bufs, Erased(m, slot))
    ensures vol.Rest() == old(vol.Rest()) && SameAccount(vol.f, old(TreeOf(vol)), TreeOf(vol))
  {
    hide TreeOk, StateOf, Step, UsersOk, FilesMatch, Coherent, InUse, SameAccount, Ended, Inside, OthersKept, Forgotten;
    ghost var T, hands := TreeOf(vol), Hands(bufs);
    FileHere(vol.f, T, hands, m, slot);
    var deleted := Delete(vol, slot);
    assert Hands(bufs) == hands;
    DeleteStep(vol.f, T, TreeOf(vol), slot);
    NoUser(m, slot);
    ErasedCoherent(m, slot);
    StepRefines(vol.f, T, TreeOf(vol), hands, m, slot, |m.users|, hands, Erased(m, slot));
    StepAccount(vol.f, T, TreeOf(vol), slot);
  }

  lemma SameTree(f: Disk, T: Tree)
    ensures SameAccount(f, T, T)
  {
  }

  lemma ClosedFirst(m: Model, c: Command, r: Reply)
    requires Allowed(m, c) && (c.Create? || c.Reopen?)
    ensures var m1 := Closed(m, c.i, c.stamp);
      Allowed(m1, c) && SlotOf(m1, if c.Reopen? then c.file else 0) == SlotOf(m, if c.Reopen? then c.file else 0)
      && Replies(m1, c, r) == Replies(m, c, r) && (Replies(m, c, r) ==> After(m1, c, r) == After(m, c, r))
  {
    hide Filled, InUse;
    assert Closed(Closed(m, c.i, c.stamp), c.i, c.stamp) == Closed(m, c.i, c.stamp);
  }

  /** A refusal is for want of room, as the image shows. */
  ghost predicate Justified(f: Disk, T: Tree, T': Tree, m: Model, c: Command, r: Reply) {
    && (c.Create? && !r.ok ==> NoRoom(f, T'.st) || NoEntryLeft(f, T'.st, T'.L))
    && (c.Put? && c.i < |m.users| && m.users[c.i].Writing? && !r.ok ==> NoneLeftFor(f, T, T', m.users[c.i].slot))
  }

  /** Closes what is open in a buffer, before the buffer is used again. */
  method Vacate(vol: Volume, bufs: seq<FileBuffer>, i: nat, stamp: Stamp, m: Model)
    requires Together(vol, bufs, m) && i < |m.users|
    modifies vol, vol.drive, bufs
    ensures Together(vol, bufs, Closed(m, i, stamp))
    ensures vol.Rest() == old(vol.Rest()) && SameAccount(vol.f, old(TreeOf(vol)), TreeOf(vol))
  {
    hide TreeOk, StateOf, SameAccount, Refines;
    SameTree(vol.f, TreeOf(vol));
    if m.users[i].Writing? {
      DoClose(vol, bufs, i, stamp, m);
    }
  }

  /** Carries out one command. */
  method Perform(vol: Volume, bufs: seq<FileBuffer>, c: Command, m: Model) returns (r: Reply)
    requires Together(vol, bufs, m) && Allowed(m, c)
    modifies vol, vol.drive, bufs
    ensures Replies(m, c, r) && Together(vol, bufs, After(m, c, r)) && vol.Rest() == old(vol.Rest())
    ensures SameAccount(vol.f, old(TreeOf(vol)), TreeOf(vol))
      && Justified(vol.f, old(TreeOf(vol)), TreeOf(vol), m, c, r)
  {
    hide TreeOk, StateOf, NoRoom, NoEntryLeft, NoneLeft, SameAccount, Refines, InUse, Filled, Forgotten;
    ghost var T := TreeOf(vol);
    r := Reply(false, 0, [], NOWHERE);
    SameTree(vol.f, T);
    match c {
      case Create(i, name, kind, stamp) =>
        Vacate(vol, bufs, i, stamp, m);
        ghost var T1 := TreeOf(vol);
        ClosedFirst(m, c, r);
        r := DoCreate(vol, bufs, c, Closed(m, i, stamp));
        ClosedFirst(m, c, r);
        AccountsCompose(vol.f, T, T1, TreeOf(vol));
      case Reopen(i, file, stamp) =>
        Vacate(vol, bufs, i, stamp, m);
        ghost var T1 := TreeOf(vol);
        ClosedFirst(m, c, r);
        if SlotOf(m, file) in Closed(m, i, stamp).files {
          r := DoReopen(vol, bufs, c, SlotOf(m, file), Closed(m, i, stamp));
          ClosedFirst(m, c, r);
          AccountsCompose(vol.f, T, T1, TreeOf(vol));
        }
      case Put(i, data) =>
        if m.users[i].Writing? {
          r := DoPut(vol, bufs, c, m);
        }
      case Close(i, stamp) =>
        Vacate(vol, bufs, i, stamp, m);
        r := r.(ok := true);
      case Fetch(file) =>
        if SlotOf(m, file) in m.files {
          var out := DoFetch(vol, bufs, SlotOf(m, file), m);
          r := r.(ok := true, out := out);
        }
      case Erase(file) =>
        if SlotOf(m, file) in m.files {
          DoErase(vol, bufs, SlotOf(m, file), m);
          r := r.(ok := true);
        }
    }
  }

  lemma AccountsCompose(f: Disk, A: Tree, B: Tree, C: Tree)
    requires SameAccount(f, A, B) && SameAccount(f, B, C)
    ensures SameAccount(f, A, C)
  {
    hide InFiles;
  }

  // ----- whole sessions -----

  /**
   The image was sound and held the files of the model all along; command `i`, with its reply, led from `models[i]` to
   `models[i + 1]`; and what was refused was refused for want of room.
   */
  ghost predicate RunOf(f: Disk, trees: seq<Tree>, models: seq<Model>, cmds: seq<Command>, replies: seq<Reply>) {
    && |trees| == |models| == |cmds| + 1 && |replies| == |cmds|
    && (forall i :: 0 <= i <= |cmds| ==> Sound(f, trees[i]) && Coherent(models[i]) && FilesMatch(trees[i], models[i]))
    && (forall i :: 0 <= i < |cmds| ==> StepOf(f, trees[i], models[i], cmds[i], replies[i], trees[i + 1], models[i + 1]))
  }

  ghost predicate StepOf(f: Disk, T: Tree, m: Model, c: Command, r: Reply, T': Tree, m': Model) {
    Allowed(m, c) && Replies(m, c, r) && m' == After(m, c, r) && Justified(f, T, T', m, c, r) && SameAccount(f, T, T')
  }

  /** The first commands were carried out, from one image and model to another. */
  ghost predicate SoFar(f: Disk, trees: seq<Tree>, models: seq<Model>, cmds: seq<Command>, replies: seq<Reply>,
                        T0: Tree, m0: Model, T: Tree, m: Model) {
    && |trees| == |models| == |replies| + 1 && |replies| <= |cmds|
    && RunOf(f, trees, models, cmds[..|replies|], replies)
    && trees[0] == T0 && models[0] == m0 && trees[|replies|] == T && models[|replies|] == m
  }

  lemma OneMore(f: Disk, trees: seq<Tree>, models: seq<Model>, cmds: seq<Command>, replies: seq<Reply>, T: Tree,
      m: Model, c: Command, r: Reply)
    requires RunOf(f, trees, models, cmds, replies)
    requires StepOf(f, trees[|cmds|], models[|cmds|], c, r, T, m) && Sound(f, T) && Coherent(m) && FilesMatch(T, m)
    ensures RunOf(f, trees + [T], models + [m], cmds + [c], replies + [r])
  {
    hide Sound, Coherent, FilesMatch, StepOf;
    var Ts, ms, cs, rs := trees + [T], models + [m], cmds + [c], replies + [r];
    forall i | 0 <= i < |cs|
      ensures StepOf(f, Ts[i], ms[i], cs[i], rs[i], Ts[i + 1], ms[i + 1])
    {
      if i < |cmds| {
        assert Ts[i] == trees[i] && Ts[i + 1] == trees[i + 1] && ms[i] == models[i] && ms[i + 1] == models[i + 1];
        assert cs[i] == cmds[i] && rs[i] == replies[i];
      }
    }
  }

  /**
   Carries out commands one after the other, as long as they are allowed. The image and the buffers do what the map
   of files does, and other images stay as they are.
   */
  method Session(vol: Volume, bufs: seq<FileBuffer>, cmds: seq<Command>, m: Model)
    returns (replies: seq<Reply>, m': Model, ghost trees: seq<Tree>, ghost models: seq<Model>)
    requires Together(vol, bufs, m)
    modifies vol, vol.drive, bufs
    ensures Together(vol, bufs, m') && vol.Rest() == old(vol.Rest())
    ensures SoFar(vol.f, trees, models, cmds, replies, old(TreeOf(vol)), m, TreeOf(vol), m')
    ensures |replies| < |cmds| ==> !Allowed(m', cmds[|replies|])
  {
    hide TreeOk, StateOf, SameAccount, Refines, Allowed, Replies, After, Justified, RunOf;
    m', replies := m, [];
    trees, models := [TreeOf(vol)], [m];
    NoCommands(vol.f, trees[0], m, Hands(bufs));
    while |replies| < |cmds| && Allowed(m', cmds[|replies|])
      invariant Together(vol, bufs, m') && vol.Rest() == old(vol.Rest())
      invariant SoFar(vol.f, trees, models, cmds, replies, old(TreeOf(vol)), m, TreeOf(vol), m')
      decreases |cmds| - |replies|
    {
      var n := |replies|;
      var r := Perform(vol, bufs, cmds[n], m');
      assert cmds[..n + 1] == cmds[..n] + [cmds[n]];
      RefinesFiles(vol.f, TreeOf(vol), Hands(bufs), After(m', cmds[n], r));
      OneMore(vol.f, trees, models, cmds[..n], replies, TreeOf(vol), After(m', cmds[n], r), cmds[n], r);
      m', replies := After(m', cmds[n], r), replies + [r];
      trees, models := trees + [TreeOf(vol)], models + [m'];
    }
  }

  lemma RefinesFiles(f: Disk, T: Tree, hands: seq<Hand>, m: Model)
    requires Refines(f, T, hands, m)
    ensures Sound(f, T) && Coherent(m) && FilesMatch(T, m)
  {
  }

  lemma NoCommands(f: Disk, T: Tree, m: Model, hands: seq<Hand>)
    requires Refines(f, T, hands, m)
    ensures RunOf(f, [T], [m], [], [])
  {
    hide Sound, Coherent, FilesMatch;
  }

  /** The list that creates a file, stores bytes in it, closes it, reads it and erases it. */
  function Life(i: nat, file: nat, name: seq<byte>, kind: byte, stamp: Stamp, data: seq<byte>): seq<Command> {
    [Create(i, name, kind, stamp), Put(i, data), Close(i, stamp), Fetch(file), Erase(file)]
  }

  /**
   It is carried out to its end from every state, and if the first two commands are not refused what is read is
   what was stored.
   */
  method WholeLife(vol: Volume, bufs: seq<FileBuffer>, i: nat, name: seq<byte>, kind: byte, stamp: Stamp, data: seq<byte>, m: Model)
    returns (replies: seq<Reply>, ghost m': Model)
    requires Together(vol, bufs, m) && i < |bufs| && kind != 0 && |name| <= NAME_LENGTH
    modifies vol, vol.drive, bufs
    ensures vol.Valid() && |replies| == 5
    ensures replies[0].ok && replies[1].ok ==> replies[3].ok && replies[3].out == Filled(data) && replies[4].ok
  {
    hide TreeOk, StateOf, Refines, RunOf, Allowed;
    ghost var trees, models;
    var cmds := Life(i, |m.made|, name, kind, stamp, data);
    replies, m', trees, models := Session(vol, bufs, cmds, m);
    LifeGoesOn(vol.f, trees, models, i, name, kind, stamp, data, replies);
  }

  /** Only buffer `i` can be used for the file with this number. */
  ghost predicate Alone(m: Model, i: nat, file: nat) {
    && i < |m.users| && file < |m.made| && (m.users[i].Writing? ==> m.users[i].slot == m.made[file])
    && forall j :: 0 <= j < |m.users| && j != i ==> !Uses(m.users[j], m.made[file])
  }

  lemma Born(m: Model, c: Command, r: Reply)
    requires c.Create? && Allowed(m, c) && Replies(m, c, r) && Coherent(m)
    ensures Alone(After(m, c, r), c.i, |m.made|)
    ensures r.ok ==> After(m, c, r).users[c.i] == Writing(r.slot, [])
  {
    hide Filled;
    ClosedCoherent(m, c.i, c.stamp);
  }

  lemma Fed(m: Model, c: Command, r: Reply, file: nat)
    requires c.Put? && Allowed(m, c) && Replies(m, c, r) && Alone(m, c.i, file)
    ensures Alone(After(m, c, r), c.i, file) && After(m, c, r).made == m.made
    ensures r.ok && m.users[c.i] == Writing(m.made[file], []) ==> After(m, c, r).users[c.i] == Writing(m.made[file], c.data)
  {
    assert [] + c.data == c.data;
  }

  lemma Finished(m: Model, c: Command, r: Reply, file: nat)
    requires c.Close? && Allowed(m, c) && Replies(m, c, r) && Alone(m, c.i, file)
    ensures After(m, c, r).made == m.made && Alone(After(m, c, r), c.i, file)
      && Allowed(After(m, c, r), Fetch(file)) && Allowed(After(m, c, r), Erase(file))
    ensures var u := m.users[c.i];
      u.Writing? ==> m.made[file] in After(m, c, r).files && After(m, c, r).files[m.made[file]] == Filled(u.done)
  {
    hide Filled;
  }

  /** Whatever is replied, the next command of the list is allowed. */
  lemma LifeGoesOn(f: Disk, trees: seq<Tree>, models: seq<Model>, i: nat, name: seq<byte>, kind: byte, stamp: Stamp, data: seq<byte>,
                   replies: seq<Reply>)
    requires models != [] && i < |models[0].users| && kind != 0 && |name| <= NAME_LENGTH && |replies| <= 5
    requires RunOf(f, trees, models, Life(i, |models[0].made|, name, kind, stamp, data)[..|replies|], replies)
    ensures |replies| < 5 ==> Allowed(models[|replies|], Life(i, |models[0].made|, name, kind, stamp, data)[|replies|])
    ensures |replies| == 5 && replies[0].ok && replies[1].ok ==> replies[3].ok && replies[3].out == Filled(data) && replies[4].ok
  {
    hide Sound, FilesMatch, Filled, InUse, Forgotten, Justified, SameAccount, Coherent, Replies, After, Allowed;
    var cmds, file, n := Life(i, |models[0].made|, name, kind, stamp, data), |models[0].made|, |replies|;
    assert forall k :: 0 <= k < n ==> cmds[..n][k] == cmds[k];
    if n == 0 {
      StartAllowed(models[0], cmds[0]);
    } else {
      assert StepOf(f, trees[0], models[0], cmds[0], replies[0], trees[1], models[1]);
      Born(models[0], cmds[0], replies[0]);
      UseAllowed(models[1], cmds[1], file);
    }
    if n >= 2 {
      assert StepOf(f, trees[1], models[1], cmds[1], replies[1], trees[2], models[2]);
      Fed(models[1], cmds[1], replies[1], file);
      UseAllowed(models[2], cmds[2], file);
    }
    if n >= 3 {
      assert StepOf(f, trees[2], models[2], cmds[2], replies[2], trees[3], models[3]);
      Finished(models[2], cmds[2], replies[2], file);
    }
    if n >= 4 {
      assert StepOf(f, trees[3], models[3], cmds[3], replies[3], trees[4], models[4]);
      Looked(models[3], cmds[3], replies[3]);
    }
    if n == 5 {
      assert StepOf(f, trees[4], models[4], cmds[4], replies[4], trees[5], models[5]);
      Gone(models[4], cmds[4], replies[4]);
    }
  }

  lemma StartAllowed(m: Model, c: Command)
    requires c.Create? && c.i < |m.users| && c.kind != 0 && |c.name| <= NAME_LENGTH
    ensures Allowed(m, c)
  {
  }

  lemma UseAllowed(m: Model, c: Command, file: nat)
    requires (c.Put? || c.Close?) && Alone(m, c.i, file)
    ensures Allowed(m, c)
  {
  }

  lemma Looked(m: Model, c: Command, r: Reply)
    requires c.Fetch? && Allowed(m, c) && Replies(m, c, r)
    ensures After(m, c, r) == m && (SlotOf(m, c.file) in m.files ==> r.ok && r.out == m.files[SlotOf(m, c.file)])
  {
  }

  lemma Gone(m: Model, c: Command, r: Reply)
    requires c.Erase? && Allowed(m, c) && Replies(m, c, r)
    ensures r.ok <==> SlotOf(m, c.file) in m.files
  {
  }

  /** A new disk and new buffers are an empty map, from which every session can start. */
  method Begin(d: Drive, part: nat, name: seq<byte>, id0: byte, id1: byte, n: nat) returns (vol: Volume, bufs: seq<FileBuffer>)
    requires d.Valid() && part < |d.parts| && !d.parts[part].format.Dnp?
    modifies d
    ensures fresh(vol) && vol.drive == d && vol.part == part && |bufs| == n
    ensures Together(vol, bufs, Model(map[], seq(n, _ => Shut), [], map[]))
    ensures forall b :: b in bufs ==> fresh(b)
  {
    hide TreeOk, StateOf, CountersOk;
    var blocks;
    vol, blocks := NewDisk(d, part, name, id0, id1);
    bufs := [];
    while |bufs| < n
      invariant |bufs| <= n && Different(bufs) && vol.Valid() && vol.L.files == map[]
      invariant forall b :: b in bufs ==> fresh(b) && !b.held
    {
      var b := new FileBuffer();
      b.GiveUp();
      bufs := bufs + [b];
    }
  }
}
