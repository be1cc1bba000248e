/**
 Sessions with the EEPROM file system: any sequence of commands on several open files does to the store what
 it does to the model.
 */
module EepromSession {
  import opened Bits
  import opened Common
  import opened EepromLayout
  import opened EepromStructure
  import opened EepromStore
  import opened EepromFs
  import opened EepromRun
  import opened EepromAppend
  import opened EepromModel

  // ----- the store behind it -----

  /** The fields of a handle. */
  datatype Hand = Hand(size: nat, curOffset: nat, entry: byte, curSector: byte, curSoffset: nat, curEntry: byte,
      curSindex: byte, mode: FileMode)

  ghost function HandOf(fh: FileHandle): Hand
    reads fh
  {
    Hand(fh.size, fh.curOffset, fh.entry, fh.curSector, fh.curSoffset, fh.curEntry, fh.curSindex, fh.mode)
  }

  /** The handle stands for a file of that name whose first bytes are `bytes`. */
  ghost predicate Stands(g: Geometry, S: Snapshot, hd: Hand, name: seq<byte>, bytes: seq<byte>) {
    var h := hd.entry as int;
    && h in S.L.files && h in ViewOf(S).names && ViewOf(S).names[h] == name && hd.size == |bytes|
    && h in ViewOf(S).contents && |bytes| <= |ViewOf(S).contents[h]| && ViewOf(S).contents[h][..|bytes|] == bytes
  }

  ghost predicate UserOk(g: Geometry, S: Snapshot, hd: Hand, u: User) {
    match u
    case Shut => hd.mode == NotOpen
    case Writing(name, done, refused) =>
      && hd.mode == ModeWrite && Stands(g, S, hd, name, done) && hd.curOffset == hd.size
      && WriteSeat(g, S.L.files[hd.entry as int], hd.size, hd.curSector, hd.curSoffset, hd.curEntry, hd.curSindex)
      && SlotKnown(S.L.files[hd.entry as int], hd.curSindex, refused)
    case Reading(name, data, pos) =>
      && hd.mode == ModeRead && Stands(g, S, hd, name, data) && hd.curOffset == pos
      && ReadSeat(g, S.L, hd.entry, hd.size, hd.curOffset, hd.curSector, hd.curSoffset, hd.curEntry, hd.curSindex)
  }

  /** The slot number in a handle that was refused an entry has gone up with every refusal. */
  ghost predicate SlotKnown(f: File, curSindex: byte, refused: nat) {
    if refused == 0 then f.secs == [] || (Seated(f, curSindex) && curSindex < 30) else curSindex as int <= 29 + refused
  }

  /** The files of the store are those of the map. */
  ghost predicate FilesMatch(v: View, files: map<seq<byte>, seq<byte>>) {
    && (forall h :: h in v.names ==> h in v.sizes && h in v.contents && v.sizes[h] <= |v.contents[h]| && v.names[h] in files
                                     && files[v.names[h]] == Recording(v, h))
    && (forall name :: name in files ==> Taken(v, name))
  }

  ghost predicate Intact(S: Snapshot) { S.L.lost == {} && S.L.torn == {} }

  /** The files have so many sectors, and so many sectors and entries are free. */
  ghost predicate RoomIs(g: Geometry, S: Snapshot, room: Room) {
    && room.free == S.free && room.entries == FreeEntries(g, S.ue)
    && forall h :: h in ViewOf(S).names && h in S.L.files ==>
      ViewOf(S).names[h] in room.sectors && room.sectors[ViewOf(S).names[h]] == |S.L.files[h].secs|
  }

  ghost predicate Refines(g: Geometry, S: Snapshot, hands: seq<Hand>, m: Model) {
    && StoreOk(g, S) && Intact(S) && Coherent(m) && FilesMatch(ViewOf(S), m.files) && RoomIs(g, S, m.room)
    && |hands| == |m.users| && UsersOk(g, S, hands, m.users)
  }

  // ----- users of other files -----

  /** File `k` has the same entries, sectors, name and bytes. */
  ghost predicate FileKept(S: Snapshot, S': Snapshot, k: nat) {
    && k in S.L.files && k in S'.L.files && S'.L.files[k] == S.L.files[k]
    && k in ViewOf(S).names && k in ViewOf(S').names && ViewOf(S').names[k] == ViewOf(S).names[k]
    && k in ViewOf(S).contents && k in ViewOf(S').contents && ViewOf(S').contents[k] == ViewOf(S).contents[k]
  }

  lemma UserKept(g: Geometry, S: Snapshot, S': Snapshot, hd: Hand, u: User)
    requires StoreOk(g, S) && StoreOk(g, S') && UserOk(g, S, hd, u) && (!u.Shut? ==> FileKept(S, S', hd.entry))
    ensures UserOk(g, S', hd, u)
  {
    hide StoreOk, ViewOf, WriteSeat, ReadSpot, Times;
    if u.Reading? && hd.curOffset < hd.size {
      SpotKept(g, S, S', hd.entry, hd.curOffset, hd.curSector, hd.curSoffset, hd.curEntry, hd.curSindex);
    }
  }

  lemma SpotKept(g: Geometry, S: Snapshot, S': Snapshot, k: nat, curOffset: nat, curSector: byte,
      curSoffset: nat, curEntry: byte, curSindex: byte)
    requires StoreOk(g, S) && StoreOk(g, S') && k in S'.L.files && k in S.L.files && S'.L.files[k] == S.L.files[k]
    requires ReadSpot(g, S.L, k, curOffset, curSector, curSoffset, curEntry, curSindex)
    ensures ReadSpot(g, S'.L, k, curOffset, curSector, curSoffset, curEntry, curSindex)
  {
    hide StoreOk, Structure, EntryOk, Base, Times, Bookkeeping;
    StoreFacts(g, S);
    StoreFacts(g, S');
    EntryInChain(g, S.dir, S.L, curEntry);
    ChainEntryFacts(g, S'.dir, S'.L, k, S.L.entOwner[curEntry as int].index);
  }

  lemma CreatedKeeps(g: Geometry, S: Snapshot, S': Snapshot, h: nat, name: seq<byte>, k: nat)
    requires StoreOk(g, S) && FileCreated(g, S, S', h, name) && k in S.L.files
    ensures FileKept(S, S', k) && k != h
  {
    hide StoreOk, ViewOf;
    ViewHas(g, S, k);
  }

  lemma AppendedKeeps(g: Geometry, S: Snapshot, S': Snapshot, h: nat, n: nat, bytes: seq<byte>, k: nat)
    requires StoreOk(g, S) && Appended(g, S, S', h, n, bytes) && k in S.L.files && k != h
    ensures FileKept(S, S', k)
  {
    hide StoreOk, ViewOf;
    ViewHas(g, S, k);
  }

  lemma RemovedKeeps(g: Geometry, S: Snapshot, S': Snapshot, h: nat, k: nat)
    requires StoreOk(g, S) && FileRemoved(g, S, S', h) && k in S.L.files && k != h
    ensures FileKept(S, S', k)
  {
    hide StoreOk, ViewOf;
    ViewHas(g, S, k);
  }

  lemma SameFilesKeep(g: Geometry, S: Snapshot, S': Snapshot, k: nat)
    requires StoreOk(g, S) && S'.L.files == S.L.files && k in S.L.files
    requires ViewOf(S').contents == ViewOf(S).contents
      && k in ViewOf(S').names && k in ViewOf(S).names && ViewOf(S').names[k] == ViewOf(S).names[k]
    ensures FileKept(S, S', k)
  {
    hide StoreOk, ViewOf;
    ViewHas(g, S, k);
  }

  // ----- what each command does to the store, as seen in the map -----

  lemma TakenIs(v: View, files: map<seq<byte>, seq<byte>>, name: seq<byte>)
    requires FilesMatch(v, files)
    ensures Taken(v, name) <==> name in files
  {
  }

  lemma SameEntry(g: Geometry, S: Snapshot, files: map<seq<byte>, seq<byte>>, h: nat, k: nat)
    requires StoreOk(g, S) && FilesMatch(ViewOf(S), files)
    requires h in ViewOf(S).names && k in ViewOf(S).names && h != k
    ensures ViewOf(S).names[h] != ViewOf(S).names[k]
  {
    hide StoreOk, ViewOf;
    if ViewOf(S).names[h] == ViewOf(S).names[k] {
      SameName(g, S, h, k);
    }
  }

  lemma CreateMatch(v: View, v': View, files: map<seq<byte>, seq<byte>>, h: nat, name: seq<byte>)
    requires FilesMatch(v, files) && ViewCreated(v, v', h, name) && name !in files
    ensures FilesMatch(v', files[name := []])
  {
    forall n | n in files[name := []]
      ensures Taken(v', n)
    {
      if n == name {
        assert v'.names[h] == name;
      } else {
        var k :| k in v.names && v.names[k] == n;
        assert v'.names[k] == n;
      }
    }
  }

  lemma AppendMatch(v: View, v': View, files: map<seq<byte>, seq<byte>>, h: nat, n: nat, bytes: seq<byte>)
    requires FilesMatch(v, files) && ViewAppended(v, v', h, n, bytes) && h in v.names && files[v.names[h]] == []
    ensures FilesMatch(v', files)
  {
    forall k | k in v'.names
      ensures k in v'.sizes && k in v'.contents && v'.sizes[k] <= |v'.contents[k]|
        && v'.names[k] in files && files[v'.names[k]] == Recording(v', k)
    {
      if k == h {
        assert |Recording(v, h)| == v.sizes[h];
      }
    }
    forall n | n in files
      ensures Taken(v', n)
    {
      assert Taken(v, n);
    }
  }

  lemma RecordMatch(v: View, v': View, files: map<seq<byte>, seq<byte>>, h: nat, bytes: seq<byte>)
    requires FilesMatch(v, files) && h in v.names && h in v.contents && |bytes| <= |v.contents[h]|
      && v.contents[h][..|bytes|] == bytes
    requires v' == v.(sizes := v.sizes[h := |bytes|]) && forall k :: k in v.names && k != h ==> v.names[k] != v.names[h]
    ensures FilesMatch(v', files[v.names[h] := bytes])
  {
    forall n | n in files
      ensures Taken(v', n)
    {
      assert Taken(v, n);
    }
  }

  lemma RenameMatch(v: View, v': View, files: map<seq<byte>, seq<byte>>, h: nat, n: seq<byte>)
    requires FilesMatch(v, files) && h in v.names && v' == v.(names := v.names[h := n]) && n !in files
    requires forall k :: k in v.names && k != h ==> v.names[k] != v.names[h]
    ensures FilesMatch(v', (files - {v.names[h]})[n := files[v.names[h]]])
  {
    var files' := (files - {v.names[h]})[n := files[v.names[h]]];
    forall x | x in files'
      ensures Taken(v', x)
    {
      if x == n {
        assert v'.names[h] == n;
      } else {
        var k :| k in v.names && v.names[k] == x;
        assert v'.names[k] == x;
      }
    }
  }

  lemma DeleteMatch(v: View, v': View, files: map<seq<byte>, seq<byte>>, h: nat)
    requires FilesMatch(v, files) && h in v.names && v' == View(v.names - {h}, v.sizes - {h}, v.contents - {h})
    requires forall k :: k in v.names && k != h ==> v.names[k] != v.names[h]
    ensures FilesMatch(v', files - {v.names[h]})
  {
    forall x | x in files - {v.names[h]}
      ensures Taken(v', x)
    {
      var k :| k in v.names && v.names[k] == x;
      assert v'.names[k] == x;
    }
  }

  // ----- and in the handles -----

  ghost predicate UsersOk(g: Geometry, S: Snapshot, hands: seq<Hand>, users: seq<User>) {
    |hands| == |users| && forall i :: 0 <= i < |hands| ==> UserOk(g, S, hands[i], users[i])
  }

  lemma UserHas(g: Geometry, S: Snapshot, hands: seq<Hand>, users: seq<User>, j: nat)
    requires UsersOk(g, S, hands, users) && j < |users| && !users[j].Shut?
    ensures hands[j].entry as int in S.L.files && hands[j].entry as int in ViewOf(S).names
      && ViewOf(S).names[hands[j].entry as int] == users[j].name
  {
    hide ViewOf, ReadSeat, WriteSeat;
  }

  /** One handle has a new use; the files the other handles are used for are as they were. */
  lemma OneUser(g: Geometry, S: Snapshot, S': Snapshot, hands: seq<Hand>, users: seq<User>, i: nat, hd: Hand, u: User)
    requires StoreOk(g, S) && StoreOk(g, S') && UsersOk(g, S, hands, users) && i < |users| && UserOk(g, S', hd, u)
    requires forall j :: 0 <= j < |users| && j != i && !users[j].Shut? ==>
      FileKept(S, S', hands[j].entry) || UserOk(g, S', hands[j], users[j])
    ensures UsersOk(g, S', hands[i := hd], users[i := u])
  {
    hide StoreOk, UserOk, FileKept;
    forall j | 0 <= j < |users| && j != i
      ensures UserOk(g, S', hands[j], users[j])
    {
      if users[j].Shut? {
        ShutOk(g, S, S', hands[j], users[j]);
      } else if FileKept(S, S', hands[j].entry) {
        UserKept(g, S, S', hands[j], users[j]);
      }
    }
  }

  lemma ShutOk(g: Geometry, S: Snapshot, S': Snapshot, hd: Hand, u: User)
    requires u.Shut? && UserOk(g, S, hd, u)
    ensures UserOk(g, S', hd, u)
  {
  }

  /** All handles keep their use. */
  lemma AllUsers(g: Geometry, S: Snapshot, S': Snapshot, hands: seq<Hand>, users: seq<User>)
    requires StoreOk(g, S) && StoreOk(g, S') && UsersOk(g, S, hands, users)
    requires forall j :: 0 <= j < |users| && !users[j].Shut? ==> FileKept(S, S', hands[j].entry)
    ensures UsersOk(g, S', hands, users)
  {
    hide StoreOk, UserOk, FileKept;
    forall j | 0 <= j < |users|
      ensures UserOk(g, S', hands[j], users[j])
    {
      if users[j].Shut? {
        ShutOk(g, S, S', hands[j], users[j]);
      } else {
        UserKept(g, S, S', hands[j], users[j]);
      }
    }
  }

  /** A reader of a file with nothing recorded is not disturbed by what is written to it. */
  lemma EmptyReader(g: Geometry, S: Snapshot, S': Snapshot, hd: Hand, u: User, n: nat, bytes: seq<byte>)
    requires u.Reading? && u.data == [] && UserOk(g, S, hd, u) && Appended(g, S, S', hd.entry, n, bytes)
    ensures UserOk(g, S', hd, u)
  {
    hide StoreOk, ViewOf, ReadSpot, Times;
    StillEmpty(g, S', hd.entry);
  }

  lemma StillEmpty(g: Geometry, S: Snapshot, h: nat)
    requires h in S.L.files && h in ViewOf(S).contents
    ensures ViewOf(S).contents[h][..0] == []
  {
  }

  // ----- the commands, one by one -----

  lemma CreateRefines(g: Geometry, S: Snapshot, S': Snapshot, hands: seq<Hand>, m: Model, i: nat,
      name: seq<byte>, hd: Hand)
    requires Refines(g, S, hands, m) && i < |m.users| && name !in m.files
    requires FileCreated(g, S, S', hd.entry, name) && hd.mode == ModeWrite && hd.size == hd.curOffset == 0
    requires hd.entry as int in S'.L.files
      && WriteSeat(g, S'.L.files[hd.entry as int], hd.size, hd.curSector, hd.curSoffset, hd.curEntry, hd.curSindex)
    ensures StoreOk(g, S') && Intact(S') && FilesMatch(ViewOf(S'), m.files[name := []])
    ensures UsersOk(g, S', hands[i := hd], m.users[i := Writing(name, [], 0)])
  {
    hide StoreOk, ViewOf, UserOk, FilesMatch, WriteSeat, UsersOk, FileKept, Coherent;
    CreateMatch(ViewOf(S), ViewOf(S'), m.files, hd.entry, name);
    forall j | 0 <= j < |m.users| && j != i && !m.users[j].Shut?
      ensures FileKept(S, S', hands[j].entry)
    {
      UserHas(g, S, hands, m.users, j);
      CreatedKeeps(g, S, S', hd.entry, name, hands[j].entry);
    }
    NewWriter(g, S', hd, name);
    OneUser(g, S, S', hands, m.users, i, hd, Writing(name, [], 0));
  }

  lemma NewWriter(g: Geometry, S: Snapshot, hd: Hand, name: seq<byte>)
    requires hd.entry as int in S.L.files && S.L.files[hd.entry as int].secs == []
    requires hd.mode == ModeWrite && hd.size == hd.curOffset == 0 && hd.entry as int in S.L.files
    requires hd.entry as int in ViewOf(S).names && ViewOf(S).names[hd.entry as int] == name
      && hd.entry as int in ViewOf(S).contents
    requires WriteSeat(g, S.L.files[hd.entry as int], hd.size, hd.curSector, hd.curSoffset, hd.curEntry, hd.curSindex)
    ensures UserOk(g, S, hd, Writing(name, [], 0))
  {
    hide ViewOf, WriteSeat;
    StillEmpty(g, S, hd.entry);
  }

  lemma OpenRefines(g: Geometry, S: Snapshot, hands: seq<Hand>, m: Model, i: nat, name: seq<byte>, hd: Hand)
    requires Refines(g, S, hands, m) && i < |m.users| && name in m.files
    requires hd.mode == ModeRead && hd.curOffset == 0 && hd.entry as int in ViewOf(S).names
      && ViewOf(S).names[hd.entry as int] == name
    requires hd.entry as int in ViewOf(S).sizes && hd.size == ViewOf(S).sizes[hd.entry as int]
    requires ReadSeat(g, S.L, hd.entry, hd.size, hd.curOffset, hd.curSector, hd.curSoffset, hd.curEntry, hd.curSindex)
    ensures UsersOk(g, S, hands[i := hd], m.users[i := Reading(name, m.files[name], 0)])
  {
    hide StoreOk, ViewOf, UserOk, ReadSpot, UsersOk, FileKept, Coherent, Times;
    NewReader(g, S, hd, m.files);
    forall j | 0 <= j < |m.users| && j != i && !m.users[j].Shut?
      ensures FileKept(S, S, hands[j].entry)
    {
      UserHas(g, S, hands, m.users, j);
      SameFilesKeep(g, S, S, hands[j].entry);
    }
    OneUser(g, S, S, hands, m.users, i, hd, Reading(name, m.files[name], 0));
  }

  lemma NewReader(g: Geometry, S: Snapshot, hd: Hand, files: map<seq<byte>, seq<byte>>)
    requires FilesMatch(ViewOf(S), files) && hd.mode == ModeRead && hd.curOffset == 0
      && hd.entry as int in ViewOf(S).names
    requires hd.entry as int in ViewOf(S).sizes && hd.size == ViewOf(S).sizes[hd.entry as int]
    requires ReadSeat(g, S.L, hd.entry, hd.size, hd.curOffset, hd.curSector, hd.curSoffset, hd.curEntry, hd.curSindex)
    ensures ViewOf(S).names[hd.entry as int] in files
    ensures UserOk(g, S, hd, Reading(ViewOf(S).names[hd.entry as int], files[ViewOf(S).names[hd.entry as int]], 0))
  {
    hide ViewOf, ReadSpot, Times;
  }

  /** Writing to a file changes its bytes behind those recorded, and no other handle's file. */
  lemma PutRefines(g: Geometry, S: Snapshot, S': Snapshot, hands: seq<Hand>, m: Model, i: nat, bytes: seq<byte>,
      refused: nat, hd: Hand)
    requires Refines(g, S, hands, m) && i < |m.users| && m.users[i].Writing?
    requires Appended(g, S, S', hd.entry, hands[i].size, bytes) && hd.entry == hands[i].entry
    requires hd.mode == ModeWrite && hd.size == hd.curOffset == hands[i].size + |bytes|
    requires hd.entry as int in S'.L.files
      && WriteSeat(g, S'.L.files[hd.entry as int], hd.size, hd.curSector, hd.curSoffset, hd.curEntry, hd.curSindex)
    requires SlotKnown(S'.L.files[hd.entry as int], hd.curSindex, refused)
    ensures StoreOk(g, S') && Intact(S') && FilesMatch(ViewOf(S'), m.files)
    ensures UsersOk(g, S', hands[i := hd], m.users[i := Writing(m.users[i].name, m.users[i].done + bytes, refused)])
  {
    hide StoreOk, ViewOf, UserOk, WriteSeat, UsersOk, FileKept, FilesMatch;
    var u := m.users[i];
    UserHas(g, S, hands, m.users, i);
    AppendMatch(ViewOf(S), ViewOf(S'), m.files, hd.entry, hands[i].size, bytes);
    forall j | 0 <= j < |m.users| && j != i && !m.users[j].Shut?
      ensures FileKept(S, S', hands[j].entry) || UserOk(g, S', hands[j], m.users[j])
    {
      UserHas(g, S, hands, m.users, j);
      OneOf(g, S, hands, m.users, j);
      if hands[j].entry != hd.entry {
        AppendedKeeps(g, S, S', hd.entry, hands[i].size, bytes, hands[j].entry);
      } else {
        assert Uses(m.users[j], u.name);
        EmptyReader(g, S, S', hands[j], m.users[j], hands[i].size, bytes);
      }
    }
    OneOf(g, S, hands, m.users, i);
    WriterGoesOn(g, S, S', hands[i], hd, u, bytes, refused);
    OneUser(g, S, S', hands, m.users, i, hd, Writing(u.name, u.done + bytes, refused));
  }

  lemma OneOf(g: Geometry, S: Snapshot, hands: seq<Hand>, users: seq<User>, j: nat)
    requires UsersOk(g, S, hands, users) && j < |users|
    ensures |hands| == |users| && UserOk(g, S, hands[j], users[j])
  {
    hide UserOk;
  }

  lemma WriterGoesOn(g: Geometry, S: Snapshot, S': Snapshot, was: Hand, hd: Hand, u: User, bytes: seq<byte>,
      refused: nat)
    requires u.Writing? && UserOk(g, S, was, u) && Appended(g, S, S', hd.entry, was.size, bytes)
      && hd.entry == was.entry
    requires hd.mode == ModeWrite && hd.size == hd.curOffset == was.size + |bytes| && hd.entry as int in ViewOf(S).names
    requires hd.entry as int in S'.L.files
      && WriteSeat(g, S'.L.files[hd.entry as int], hd.size, hd.curSector, hd.curSoffset, hd.curEntry, hd.curSindex)
    requires SlotKnown(S'.L.files[hd.entry as int], hd.curSindex, refused)
    ensures UserOk(g, S', hd, Writing(u.name, u.done + bytes, refused))
  {
    hide StoreOk, ViewOf, WriteSeat;
  }

  lemma GetRefines(g: Geometry, S: Snapshot, hands: seq<Hand>, m: Model, i: nat, hd: Hand, out: seq<byte>)
    requires Refines(g, S, hands, m) && i < |m.users| && m.users[i].Reading?
    requires hd.mode == ModeRead && hd.entry == hands[i].entry && hd.size == hands[i].size
      && hd.curOffset == hands[i].curOffset + |out|
    requires hd.curOffset <= hd.size && hd.entry as int in ViewOf(S).contents
      && hd.curOffset <= |ViewOf(S).contents[hd.entry as int]|
    requires out == ViewOf(S).contents[hd.entry as int][hands[i].curOffset..hd.curOffset]
    requires ReadSeat(g, S.L, hd.entry, hd.size, hd.curOffset, hd.curSector, hd.curSoffset, hd.curEntry, hd.curSindex)
    ensures var u := m.users[i];
      && u.pos + |out| <= |u.data| && out == u.data[u.pos..u.pos + |out|]
      && UsersOk(g, S, hands[i := hd], m.users[i := Reading(u.name, u.data, u.pos + |out|)])
  {
    hide StoreOk, ViewOf, ReadSpot, UsersOk, FileKept, Coherent, Times, FilesMatch;
    OneOf(g, S, hands, m.users, i);
    var u := m.users[i];
    assert ViewOf(S).contents[hd.entry as int][hands[i].curOffset..hd.curOffset] == u.data[u.pos..u.pos + |out|];
    forall j | 0 <= j < |m.users| && j != i && !m.users[j].Shut?
      ensures FileKept(S, S, hands[j].entry)
    {
      UserHas(g, S, hands, m.users, j);
      SameFilesKeep(g, S, S, hands[j].entry);
    }
    OneUser(g, S, S, hands, m.users, i, hd, Reading(u.name, u.data, u.pos + |out|));
  }

  /** Closing records what was written. */
  lemma CloseRefines(g: Geometry, S: Snapshot, S': Snapshot, hands: seq<Hand>, m: Model, i: nat, hd: Hand)
    requires Refines(g, S, hands, m) && i < |m.users| && m.users[i].Writing? && StoreOk(g, S') && hd.mode == NotOpen
    requires hands[i].entry as int in S.L.files && S'.L == Recorded(g, S.L, hands[i].entry, hands[i].size)
    requires hands[i].size <= Times(g.sectorSize, |S.L.files[hands[i].entry as int].secs|)
    requires ViewOf(S') == ViewOf(S).(sizes := ViewOf(S).sizes[hands[i].entry as int := hands[i].size])
    ensures Intact(S') && FilesMatch(ViewOf(S'), m.files[m.users[i].name := m.users[i].done])
    ensures UsersOk(g, S', hands[i := hd], m.users[i := Shut])
  {
    hide StoreOk, ViewOf, WriteSeat, UsersOk, FileKept, Coherent, Times, FilesMatch;
    var h: nat := hands[i].entry;
    OneOf(g, S, hands, m.users, i);
    forall k | k in ViewOf(S).names && k != h
      ensures ViewOf(S).names[k] != ViewOf(S).names[h]
    {
      SameEntry(g, S, m.files, h, k);
    }
    RecordMatch(ViewOf(S), ViewOf(S'), m.files, h, m.users[i].done);
    forall j | 0 <= j < |m.users| && j != i && !m.users[j].Shut?
      ensures FileKept(S, S', hands[j].entry)
    {
      UserHas(g, S, hands, m.users, j);
      SameFilesKeep(g, S, S', hands[j].entry);
    }
    OneUser(g, S, S', hands, m.users, i, hd, Shut);
  }

  lemma RenameRefines(g: Geometry, S: Snapshot, S': Snapshot, hands: seq<Hand>, m: Model, h: nat, n: seq<byte>)
    requires Refines(g, S, hands, m) && StoreOk(g, S') && S'.L == S.L && h in ViewOf(S).names && n !in m.files
    requires ViewOf(S') == ViewOf(S).(names := ViewOf(S).names[h := n])
    ensures var o := ViewOf(S).names[h];
      && o in m.files && FilesMatch(ViewOf(S'), (m.files - {o})[n := m.files[o]])
      && UsersOk(g, S', hands, AllRenamed(m.users, o, n))
  {
    hide StoreOk, ViewOf, WriteSeat, ReadSeat, FileKept, Coherent, Times;
    var o := ViewOf(S).names[h];
    forall k | k in ViewOf(S).names && k != h
      ensures ViewOf(S).names[k] != o
    {
      SameEntry(g, S, m.files, h, k);
    }
    RenameMatch(ViewOf(S), ViewOf(S'), m.files, h, n);
    forall j | 0 <= j < |m.users|
      ensures UserOk(g, S', hands[j], AllRenamed(m.users, o, n)[j])
    {
      OneOf(g, S, hands, m.users, j);
    }
  }

  lemma DeleteRefines(g: Geometry, S: Snapshot, S': Snapshot, hands: seq<Hand>, m: Model, h: nat)
    requires Refines(g, S, hands, m) && StoreOk(g, S) && FileRemoved(g, S, S', h) && h in ViewOf(S).names
    requires forall j :: 0 <= j < |m.users| ==> !Uses(m.users[j], ViewOf(S).names[h])
    ensures StoreOk(g, S') && Intact(S') && FilesMatch(ViewOf(S'), m.files - {ViewOf(S).names[h]})
      && UsersOk(g, S', hands, m.users)
  {
    hide StoreOk, ViewOf, UserOk, UsersOk, FileKept, Coherent, FilesMatch, Removed;
    forall k | k in ViewOf(S).names && k != h
      ensures ViewOf(S).names[k] != ViewOf(S).names[h]
    {
      SameEntry(g, S, m.files, h, k);
    }
    DeleteMatch(ViewOf(S), ViewOf(S'), m.files, h);
    RemovedIntact(S.L, h);
    forall j | 0 <= j < |m.users| && !m.users[j].Shut?
      ensures FileKept(S, S', hands[j].entry)
    {
      UserHas(g, S, hands, m.users, j);
      assert !Uses(m.users[j], ViewOf(S).names[h]);
      RemovedKeeps(g, S, S', h, hands[j].entry);
    }
    AllUsers(g, S, S', hands, m.users);
  }

  lemma RemovedIntact(L: Layout, h: nat)
    ensures Removed(L, h).lost == L.lost && Removed(L, h).torn <= L.torn
  {
  }

  // ----- the room there is -----

  /** Other files have other names. */
  ghost predicate OnlyName(S: Snapshot, h: nat, name: seq<byte>) {
    forall k :: k in ViewOf(S).names && k != h ==> ViewOf(S).names[k] != name
  }

  lemma NameOnce(g: Geometry, S: Snapshot, files: map<seq<byte>, seq<byte>>, h: nat)
    requires StoreOk(g, S) && FilesMatch(ViewOf(S), files) && h in ViewOf(S).names
    ensures OnlyName(S, h, ViewOf(S).names[h])
  {
    hide StoreOk, ViewOf;
    forall k | k in ViewOf(S).names && k != h
      ensures ViewOf(S).names[k] != ViewOf(S).names[h]
    {
      SameEntry(g, S, files, h, k);
    }
  }

  lemma RoomCreated(g: Geometry, S: Snapshot, S': Snapshot, files: map<seq<byte>, seq<byte>>, room: Room,
      h: nat, name: seq<byte>)
    requires RoomIs(g, S, room) && FilesMatch(ViewOf(S), files) && name !in files && FileCreated(g, S, S', h, name)
    requires S'.free == S.free && FreeEntries(g, S.ue) == FreeEntries(g, S'.ue) + 1
    ensures RoomIs(g, S', Room(room.sectors[name := 0], room.free, room.entries - 1))
  {
    hide StoreOk, ViewOf, FreeEntries;
  }

  lemma RoomPut(g: Geometry, S: Snapshot, S': Snapshot, room: Room, h: nat, n: nat, bytes: seq<byte>)
    requires RoomIs(g, S, room) && Appended(g, S, S', h, n, bytes) && h in ViewOf(S).names
      && OnlyName(S, h, ViewOf(S).names[h])
    ensures RoomIs(g, S', Room(room.sectors[ViewOf(S).names[h] := |S'.L.files[h].secs|], S'.free, FreeEntries(g, S'.ue)))
  {
    hide StoreOk, ViewOf, FreeEntries;
  }

  lemma RoomDeleted(g: Geometry, S: Snapshot, S': Snapshot, room: Room, h: nat)
    requires StoreOk(g, S) && RoomIs(g, S, room) && FileRemoved(g, S, S', h) && S'.ue == S.ue
    requires h in ViewOf(S).names && OnlyName(S, h, ViewOf(S).names[h])
    ensures RoomIs(g, S', Room(room.sectors - {ViewOf(S).names[h]}, room.free + SectorCount(room, ViewOf(S).names[h]), room.entries))
  {
    hide StoreOk, ViewOf, FreeEntries, Removed;
    var name := ViewOf(S).names[h];
    RemovedFiles(S.L, h);
    forall k | k in ViewOf(S').names && k in S'.L.files
      ensures ViewOf(S').names[k] in room.sectors - {name} && room.sectors[ViewOf(S').names[k]] == |S'.L.files[k].secs|
    {
      assert k != h && ViewOf(S').names[k] == ViewOf(S).names[k];
    }
  }

  lemma RemovedFiles(L: Layout, h: nat)
    requires h in L.files
    ensures Removed(L, h).files == L.files - {h}
  {
  }

  lemma RoomRenamed(g: Geometry, S: Snapshot, S': Snapshot, room: Room, h: nat, n: seq<byte>)
    requires RoomIs(g, S, room) && S'.L == S.L && S'.free == S.free && S'.ue == S.ue && h in S.L.files
    requires h in ViewOf(S).names && OnlyName(S, h, ViewOf(S).names[h]) && OnlyName(S, h, n)
    requires ViewOf(S').names == ViewOf(S).names[h := n]
    ensures var o := ViewOf(S).names[h];
      RoomIs(g, S', room.(sectors := (room.sectors - {o})[n := SectorCount(room, o)]))
  {
    hide ViewOf, FreeEntries;
  }

  lemma RoomSame(g: Geometry, S: Snapshot, S': Snapshot, room: Room)
    requires RoomIs(g, S, room) && S'.L.files == S.L.files && S'.free == S.free && S'.ue == S.ue
      && ViewOf(S').names == ViewOf(S).names
    ensures RoomIs(g, S', room)
  {
    hide ViewOf, FreeEntries;
  }

  /** The sectors of a file are as many as its entries must list. */
  lemma EntriesListed(g: Geometry, S: Snapshot, h: nat)
    requires StoreOk(g, S) && h in S.L.files
    ensures S.L.files[h].chain != [] && ListedIn(|S.L.files[h].chain|, |S.L.files[h].secs|)
  {
    hide StoreOk, Structure;
    StoreFacts(g, S);
    LastEntryFacts(g, S.dir, S.L, h);
    FullBefore(g, S.dir, S.L, h);
  }

  /** What a writer knows of its file: where it ends. */
  lemma WriterEnds(g: Geometry, S: Snapshot, hd: Hand, u: User)
    requires u.Writing? && UserOk(g, S, hd, u)
    ensures hd.entry as int in S.L.files && hd.size == hd.curOffset == |u.done| && hd.entry as int in ViewOf(S).names
    ensures ViewOf(S).names[hd.entry as int] == u.name
    ensures SizeEndsIn(g.sectorSize, |S.L.files[hd.entry as int].secs|, |u.done|)
    ensures hd.curSoffset == 0 ==> |u.done| == Times(g.sectorSize, |S.L.files[hd.entry as int].secs|)
  {
    hide ViewOf;
    var n := |S.L.files[hd.entry as int].secs|;
    if n > 0 {
      assert Times(g.sectorSize, n) == Times(g.sectorSize, n - 1) + g.sectorSize;
    }
  }

  // ----- carrying commands out -----

  ghost function Hands(fhs: seq<FileHandle>): (r: seq<Hand>)
    reads fhs
    ensures |r| == |fhs|
  {
    seq(|fhs|, i requires 0 <= i < |fhs| reads fhs => HandOf(fhs[i]))
  }

  ghost predicate Different(fhs: seq<FileHandle>) {
    forall i, j :: 0 <= i < j < |fhs| ==> fhs[i] != fhs[j]
  }

  /** The store and the handles are what the model says. */
  ghost predicate Together(fs: Store, fhs: seq<FileHandle>, m: Model)
    reads fs, fhs
  {
    fs.Valid() && |fhs| == |m.users| && Different(fhs) && Refines(fs.g, fs.S(), Hands(fhs), m)
  }

  /** The outcome of a command. */
  ghost predicate Goes(fs: Store, fhs: seq<FileHandle>, m: Model, c: Command, r: Reply)
    requires Allowed(m, c) && fs.g.sectorSize > 0
    reads fs, fhs
  {
    r == Outcome(fs.g.sectorSize, m, c).0 && Together(fs, fhs, Outcome(fs.g.sectorSize, m, c).1)
  }

  method DoCreate(fs: Store, fhs: seq<FileHandle>, i: nat, name: seq<byte>, ghost m: Model) returns (r: Reply)
    requires Together(fs, fhs, m) && Allowed(m, Create(i, name))
    modifies fs, fhs
    ensures Goes(fs, fhs, m, Create(i, name), r)
  {
    hide StoreOk, ViewOf, UsersOk, FilesMatch, Taken, WriteSeat, FileCreated, Coherent, RoomIs, FreeEntries;
    ghost var S, hands := fs.S(), Hands(fhs);
    EntriesAtStart(fs, m);
    var err := fs.Open(name, fhs[i], ForWriting);
    r := Reply(err, 0, []);
    TakenIs(ViewOf(S), m.files, name);
    assert Hands(fhs) == hands[i := HandOf(fhs[i])];
    if err == Ok {
      RoomCreated(fs.g, S, fs.S(), m.files, m.room, fhs[i].entry, name);
      CreateRefines(fs.g, S, fs.S(), hands, m, i, name, HandOf(fhs[i]));
    } else {
      if err == DirFull {
        fs.NoEntriesLeft();
      }
      ShutRefines(fs.g, S, hands, m, i, HandOf(fhs[i]));
    }
    StaysCoherent(fs.g.sectorSize, m, Create(i, name));
  }

  lemma EntriesAtStart(fs: Store, m: Model)
    requires fs.Valid() && RoomIs(fs.g, fs.S(), m.room)
    ensures m.room.entries == fs.EntriesLeft() && m.room.free == fs.freeSectors
  {
    hide StoreOk, ViewOf, FreeEntries;
  }

  method DoOpenRead(fs: Store, fhs: seq<FileHandle>, i: nat, name: seq<byte>, ghost m: Model) returns (r: Reply)
    requires Together(fs, fhs, m) && Allowed(m, OpenRead(i, name))
    modifies fs, fhs
    ensures Goes(fs, fhs, m, OpenRead(i, name), r)
  {
    hide StoreOk, ViewOf, UsersOk, FilesMatch, Taken, ReadSeat, Coherent, RoomIs, FreeEntries;
    ghost var S, hands := fs.S(), Hands(fhs);
    var err := fs.Open(name, fhs[i], ForReading);
    r := Reply(err, 0, []);
    TakenIs(ViewOf(S), m.files, name);
    assert Hands(fhs) == hands[i := HandOf(fhs[i])];
    if err == Ok {
      OpenRefines(fs.g, S, hands, m, i, name, HandOf(fhs[i]));
    } else {
      ShutRefines(fs.g, S, hands, m, i, HandOf(fhs[i]));
    }
    StaysCoherent(fs.g.sectorSize, m, OpenRead(i, name));
  }

  /** A write to a handle that is open for it. */
  method DoPut(fs: Store, fhs: seq<FileHandle>, i: nat, data: seq<byte>, ghost m: Model) returns (r: Reply)
    requires Together(fs, fhs, m) && Allowed(m, Put(i, data)) && m.users[i].Writing?
    modifies fs, fhs
    ensures Goes(fs, fhs, m, Put(i, data), r)
  {
    hide StoreOk, ViewOf, UsersOk, FilesMatch, WriteSeat, Coherent, Appended, RoomIs, FreeEntries, Accepted, Refusal, SectorsFor,
         EntriesFor, Refused, SlotKnown, SizeEndsIn, Times, ListedIn;
    ghost var S, hands, u, was := fs.S(), Hands(fhs), m.users[i], HandOf(fhs[i]);
    ghost var h: nat := fhs[i].entry;
    UserIs(fs.g, S, hands, m, i);
    WriterEnds(fs.g, S, was, u);
    EntriesAtStart(fs, m);
    var err, written := fs.Write(fhs[i], data);
    r := Reply(err, written, []);
    assert Hands(fhs) == hands[i := HandOf(fhs[i])];
    ghost var refused := Refused(u.refused, err, written);
    AppendedFacts(fs.g, S, fs.S(), h, |u.done|, data[..written]);
    EntriesListed(fs.g, fs.S(), h);
    SlotAfter(S.L.files[h], fs.L.files[h], was.curSindex, fhs[i].curSindex, u.refused, data, err, written);
    if err == DirFull {
      fs.NoEntriesLeft();
    }
    PutRefines(fs.g, S, fs.S(), hands, m, i, data[..written], refused, HandOf(fhs[i]));
    OneOf(fs.g, fs.S(), Hands(fhs), m.users[i := Writing(u.name, u.done + data[..written], refused)], i);
    PutRoom(fs.g, S, fs.S(), was, HandOf(fhs[i]), m, u, refused, data, written, err);
    StaysCoherent(fs.g.sectorSize, m, Put(i, data));
  }

  /** What a write took of the room is what the model takes. */
  lemma PutRoom(g: Geometry, S: Snapshot, S': Snapshot, was: Hand, hd: Hand, m: Model, u: User, refused: nat,
      data: seq<byte>, w: nat, err: Error)
    requires StoreOk(g, S) && RoomIs(g, S, m.room) && FilesMatch(ViewOf(S), m.files)
    requires u.Writing? && UserOk(g, S, was, u) && w <= |data| && hd.entry == was.entry
    requires Appended(g, S, S', hd.entry, |u.done|, data[..w])
      && UserOk(g, S', hd, Writing(u.name, u.done + data[..w], refused))
    requires FreeEntries(g, S'.ue) + |S'.L.files[hd.entry as int].chain| == FreeEntries(g, S.ue) + |S.L.files[hd.entry as int].chain|
    requires err == Ok || err == DiskFull || err == DirFull
    requires if err == Ok then w == |data| else w < |data| && hd.curSoffset == 0
    requires err == DiskFull ==> S'.free == 0
    requires err == DirFull ==>
      && S'.free > 0 && FreeEntries(g, S'.ue) == 0
      && |S'.L.files[hd.entry as int].secs| == Base(|S'.L.files[hd.entry as int].chain|)
    ensures w == Accepted(g.sectorSize, m.room.free, m.room.entries, |u.done|, |data|)
    ensures err == Refusal(g.sectorSize, m.room.free, m.room.entries, |u.done|, |data|)
    ensures RoomIs(g, S', RoomAfter(g.sectorSize, m.room, u.name, |u.done|, w))
  {
    hide StoreOk, ViewOf, UserOk, Appended, RoomIs, FreeEntries, Accepted, Refusal, SectorsFor, EntriesFor,
      SizeEndsIn, Times, ListedIn, FilesMatch;
    var h: nat := hd.entry;
    RoomParts(g, S, m.room);
    AppendedFacts(g, S, S', h, |u.done|, data[..w]);
    WriterEnds(g, S, was, u);
    WriterEnds(g, S', hd, Writing(u.name, u.done + data[..w], refused));
    var z, k, k' := g.sectorSize, |S.L.files[h].secs|, |S'.L.files[h].secs|;
    NameOnce(g, S, m.files, h);
    RoomPut(g, S, S', m.room, h, |u.done|, data[..w]);
    AppendedMoves(g, S, S', h, |u.done|, data[..w]);
    EntriesListed(g, S, h);
    EntriesListed(g, S', h);
    AcceptedIs(z, m.room.free, m.room.entries, k, |S.L.files[h].chain|, |u.done|, |data|,
               S'.free, FreeEntries(g, S'.ue), k', |S'.L.files[h].chain|, w, err);
    SectorsAre(z, k', |u.done| + w);
    assert RoomAfter(z, m.room, u.name, |u.done|, w) == Room(m.room.sectors[u.name := k'], S'.free, FreeEntries(g, S'.ue));
  }

  lemma RoomParts(g: Geometry, S: Snapshot, room: Room)
    requires RoomIs(g, S, room)
    ensures room.free == S.free && room.entries == FreeEntries(g, S.ue)
  {
  }

  lemma AppendedMoves(g: Geometry, S: Snapshot, S': Snapshot, h: nat, n: nat, bytes: seq<byte>)
    requires StoreOk(g, S) && Appended(g, S, S', h, n, bytes)
    ensures h in S.L.files && h in S'.L.files && S'.free + |S'.L.files[h].secs| == S.free + |S.L.files[h].secs|
  {
    hide StoreOk, ViewOf;
    FreeMoves(g, S, S', h);
  }

  /** The slot number of a handle after a write. */
  lemma SlotAfter(f: File, f': File, was: byte, now: byte, refused: nat, data: seq<byte>, err: Error, w: nat)
    requires SlotKnown(f, was, refused) && (data != [] ==> refused < REFUSAL_LIMIT) && (err != Ok ==> data != [])
      && (w > 0 ==> data != [])
    requires if w > 0 then (if err == DirFull then now <= 30 else now < 30 && Seated(f', now))
             else now == if err == DirFull then Advance(was) else was
    requires (w == 0 ==> f' == f) && (err == DirFull ==> f'.chain != [] && |f'.secs| == Base(|f'.chain|))
    ensures SlotKnown(f', now, Refused(refused, err, w)) && (err == DirFull ==> now < 255)
  {
  }

  lemma UserIs(g: Geometry, S: Snapshot, hands: seq<Hand>, m: Model, i: nat)
    requires Refines(g, S, hands, m) && i < |m.users|
    ensures UserOk(g, S, hands[i], m.users[i])
    ensures (hands[i].mode == ModeWrite <==> m.users[i].Writing?)
      && (hands[i].mode == ModeRead <==> m.users[i].Reading?)
  {
    hide StoreOk, ViewOf, FilesMatch, Coherent, WriteSeat, ReadSeat, Stands, RoomIs, SlotKnown;
  }

  /** A read from a handle that is open for it. */
  method DoGet(fs: Store, fhs: seq<FileHandle>, i: nat, length: nat, ghost m: Model) returns (r: Reply)
    requires Together(fs, fhs, m) && Allowed(m, Get(i, length)) && m.users[i].Reading?
    modifies fs, fhs
    ensures Goes(fs, fhs, m, Get(i, length), r)
  {
    hide StoreOk, ViewOf, UsersOk, FilesMatch, WriteSeat, ReadSpot, Coherent, Times, RoomIs, FreeEntries;
    ghost var S, hands := fs.S(), Hands(fhs);
    UserIs(fs.g, S, hands, m, i);
    var err, out := fs.Read(fhs[i], length);
    r := Reply(err, |out|, out);
    assert Hands(fhs) == hands[i := HandOf(fhs[i])];
    GetRefines(fs.g, S, hands, m, i, HandOf(fhs[i]), out);
    StaysCoherent(fs.g.sectorSize, m, Get(i, length));
  }

  /** A read or write on a handle that is not open for it is refused. */
  method DoNothing(fs: Store, fhs: seq<FileHandle>, c: Command, ghost m: Model) returns (r: Reply)
    requires Together(fs, fhs, m) && Allowed(m, c)
      && ((c.Put? && !m.users[c.slot].Writing?) || (c.Get? && !m.users[c.slot].Reading?))
    modifies fs, fhs
    ensures Goes(fs, fhs, m, c, r)
  {
    hide StoreOk, ViewOf, UsersOk, FilesMatch, WriteSeat, ReadSeat, Coherent, RoomIs, FreeEntries;
    ghost var S, hands := fs.S(), Hands(fhs);
    UserIs(fs.g, S, hands, m, c.slot);
    var err;
    if c.Put? {
      var written;
      err, written := fs.Write(fhs[c.slot], c.data);
    } else {
      var out;
      err, out := fs.Read(fhs[c.slot], c.length);
    }
    r := Reply(err, 0, []);
    assert Hands(fhs) == hands[c.slot := HandOf(fhs[c.slot])];
    assert hands[c.slot := hands[c.slot]] == hands;
  }

  method DoClose(fs: Store, fhs: seq<FileHandle>, i: nat, ghost m: Model) returns (r: Reply)
    requires Together(fs, fhs, m) && Allowed(m, CloseFile(i))
    modifies fs, fhs
    ensures Goes(fs, fhs, m, CloseFile(i), r)
  {
    hide StoreOk, ViewOf, UsersOk, FilesMatch, WriteSeat, ReadSeat, Coherent, Times, Recorded, RoomIs, FreeEntries;
    ghost var S, hands := fs.S(), Hands(fhs);
    UserIs(fs.g, S, hands, m, i);
    if m.users[i].Writing? {
      WriterFits(fs.g, S, hands[i], m.users[i]);
    }
    fs.Close(fhs[i]);
    r := Reply(Ok, 0, []);
    assert Hands(fhs) == hands[i := HandOf(fhs[i])];
    if m.users[i].Writing? {
      CloseRefines(fs.g, S, fs.S(), hands, m, i, HandOf(fhs[i]));
      RecordedFiles(fs.g, S.L, hands[i].entry, hands[i].size);
      RoomSame(fs.g, S, fs.S(), m.room);
    } else {
      ShutRefines(fs.g, S, hands, m, i, HandOf(fhs[i]));
    }
    StaysCoherent(fs.g.sectorSize, m, CloseFile(i));
  }

  lemma RecordedFiles(g: Geometry, L: Layout, h: nat, size: nat)
    requires h in L.files
    ensures Recorded(g, L, h, size).files == L.files
  {
  }

  lemma WriterFits(g: Geometry, S: Snapshot, hd: Hand, u: User)
    requires StoreOk(g, S) && u.Writing? && UserOk(g, S, hd, u)
    ensures hd.entry as int in S.L.files && hd.size <= Times(g.sectorSize, |S.L.files[hd.entry as int].secs|)
      && hd.size < 65536
  {
    hide StoreOk, ViewOf, WriteSeat;
    ContentsLength(g, S, hd.entry);
    SizesStaySmall(g, S, hd.entry);
  }

  /** A handle that is not open any more; the store is as it was. */
  lemma ShutRefines(g: Geometry, S: Snapshot, hands: seq<Hand>, m: Model, i: nat, hd: Hand)
    requires Refines(g, S, hands, m) && i < |m.users| && hd.mode == NotOpen
    ensures UsersOk(g, S, hands[i := hd], m.users[i := Shut])
  {
    hide StoreOk, ViewOf, FilesMatch, Coherent, WriteSeat, ReadSeat, Stands, RoomIs, SlotKnown;
  }

  method DoRename(fs: Store, fhs: seq<FileHandle>, o: seq<byte>, n: seq<byte>, ghost m: Model) returns (r: Reply)
    requires Together(fs, fhs, m) && Allowed(m, Rename(o, n))
    modifies fs
    ensures Goes(fs, fhs, m, Rename(o, n), r)
  {
    hide StoreOk, ViewOf, UsersOk, FilesMatch, Coherent, Taken, RoomIs, FreeEntries, OnlyName;
    ghost var S, hands := fs.S(), Hands(fhs);
    TakenIs(ViewOf(S), m.files, n);
    TakenIs(ViewOf(S), m.files, o);
    ghost var h;
    var err;
    err, h := fs.Rename(o, n);
    r := Reply(err, 0, []);
    assert Hands(fhs) == hands;
    if err == Ok {
      RenameRefines(fs.g, S, fs.S(), hands, m, h, n);
      NameOnce(fs.g, S, m.files, h);
      NameNew(S, m.files, h, n);
      ViewHasName(fs.g, S, h);
      RoomRenamed(fs.g, S, fs.S(), m.room, h, n);
    }
    StaysCoherent(fs.g.sectorSize, m, Rename(o, n));
  }

  lemma NameNew(S: Snapshot, files: map<seq<byte>, seq<byte>>, h: nat, n: seq<byte>)
    requires FilesMatch(ViewOf(S), files) && n !in files
    ensures OnlyName(S, h, n)
  {
    hide ViewOf;
  }

  lemma ViewHasName(g: Geometry, S: Snapshot, h: nat)
    requires h in ViewOf(S).names
    ensures h in S.L.files
  {
  }

  method DoDelete(fs: Store, fhs: seq<FileHandle>, name: seq<byte>, ghost m: Model) returns (r: Reply)
    requires Together(fs, fhs, m) && Allowed(m, Delete(name))
    modifies fs
    ensures Goes(fs, fhs, m, Delete(name), r)
  {
    hide StoreOk, ViewOf, UsersOk, FilesMatch, Coherent, Taken, FileRemoved, RoomIs, FreeEntries, OnlyName, AnyUses;
    ghost var S, hands := fs.S(), Hands(fhs);
    TakenIs(ViewOf(S), m.files, name);
    ghost var h;
    var err;
    err, h := fs.Delete(name);
    r := Reply(err, 0, []);
    assert Hands(fhs) == hands;
    if err == Ok {
      NobodyUses(m, name);
      DeleteRefines(fs.g, S, fs.S(), hands, m, h);
      NameOnce(fs.g, S, m.files, h);
      RoomDeleted(fs.g, S, fs.S(), m.room, h);
    }
    StaysCoherent(fs.g.sectorSize, m, Delete(name));
  }

  lemma NobodyUses(m: Model, name: seq<byte>)
    requires !AnyUses(m.users, name)
    ensures forall j :: 0 <= j < |m.users| ==> !Uses(m.users[j], name)
  {
  }

  /** Carries out one command: the reply is the one the model has, and so is the outcome. */
  method Perform(fs: Store, fhs: seq<FileHandle>, c: Command, m: Model) returns (r: Reply)
    requires Together(fs, fhs, m) && Allowed(m, c)
    modifies fs, fhs
    ensures Goes(fs, fhs, m, c, r)
  {
    hide Together, Outcome;
    match c {
      case Create(i, name) => r := DoCreate(fs, fhs, i, name, m);
      case OpenRead(i, name) => r := DoOpenRead(fs, fhs, i, name, m);
      case Put(i, data) =>
        if m.users[i].Writing? {
          r := DoPut(fs, fhs, i, data, m);
        } else {
          r := DoNothing(fs, fhs, c, m);
        }
      case Get(i, n) =>
        if m.users[i].Reading? {
          r := DoGet(fs, fhs, i, n, m);
        } else {
          r := DoNothing(fs, fhs, c, m);
        }
      case CloseFile(i) => r := DoClose(fs, fhs, i, m);
      case Rename(o, n) => r := DoRename(fs, fhs, o, n, m);
      case Delete(name) => r := DoDelete(fs, fhs, name, m);
    }
  }

  /**
   Carries out commands on any number of handles, as long as they are allowed. The replies are those of the model,
   and the store and the handles end up as the model does.
   */
  method Session(fs: Store, fhs: seq<FileHandle>, cmds: seq<Command>, m: Model) returns (replies: seq<Reply>, m': Model)
    requires Together(fs, fhs, m)
    modifies fs, fhs
    ensures (replies, m') == Carried(fs.g.sectorSize, m, cmds) && Together(fs, fhs, m')
    ensures |replies| < |cmds| ==> !Allowed(m', cmds[|replies|])
    decreases |cmds|
  {
    hide Together, Outcome, Allowed;
    if cmds == [] || !Allowed(m, cmds[0]) {
      return [], m;
    }
    var r := Perform(fs, fhs, cmds[0], m);
    var more;
    more, m' := Session(fs, fhs, cmds[1..], Outcome(fs.g.sectorSize, m, cmds[0]).1);
    replies := [r] + more;
  }

  /** A new store and new handles are an empty model, from which every session can start. */
  method Begin(g: Geometry, mem: Memory, n: nat) returns (fs: Store, fhs: seq<FileHandle>)
    requires |mem| == g.size
    ensures fresh(fs) && fs.g == g && |fhs| == n
    ensures Together(fs, fhs, Model(map[], seq(n, _ => Shut), Room(map[], g.sectors, g.entries)))
    ensures forall fh :: fh in fhs ==> fresh(fh)
  {
    hide StoreOk, ViewOf, FreeEntries;
    fs := new Store(g, mem);
    fs.Format();
    AllEntriesFree(g, fs.usedEntries);
    fhs := [];
    while |fhs| < n
      invariant |fhs| <= n && Different(fhs) && fs.Valid() && fs.V() == View(map[], map[], map[]) && fs.L == EMPTY
      invariant fs.freeSectors == g.sectors && FreeEntries(g, fs.usedEntries) == g.entries
      invariant forall fh :: fh in fhs ==> fresh(fh) && fh.mode == NotOpen
    {
      var fh := new FileHandle();
      fhs := fhs + [fh];
    }
  }

  lemma AllEntriesFree(g: Geometry, ue: seq<byte>)
    requires g.entries <= 8 * |ue| && forall i: nat :: i < g.entries ==> !GetBit(ue, i)
    ensures FreeEntries(g, ue) == g.entries
  {
    hide GetBit;
    AllUnmarked(ue, g.entries);
  }

  lemma {:induction false} AllUnmarked(ue: seq<byte>, n: nat)
    requires n <= 8 * |ue| && forall i: nat :: i < n ==> !GetBit(ue, i)
    ensures Unmarked(ue, n) == n
  {
    hide GetBit;
    if n > 0 {
      AllUnmarked(ue, n - 1);
    }
  }
}
