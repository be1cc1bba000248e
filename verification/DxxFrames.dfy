/** What an operation on one file leaves of all the others. */
module DxxFrames {
  import opened Bits
  import opened DxxGeometry
  import opened DxxBam
  import opened DxxState
  import opened DxxLayout

  /** An image and who owns its sectors. */
  datatype Tree = Tree(st: State, L: Layout)

  ghost predicate Sound(f: Disk, T: Tree) { TreeOk(f, T.st, T.L) }

  /** Same chain, same sectors, same entry for every file but `slot`. */
  ghost predicate OthersKept(T: Tree, T': Tree, slot: Slot) {
    && SectorsKept(T, T', slot)
    && EntriesKept(T, T', slot)
    && forall k :: k != slot ==> (k in T.L.files <==> k in T'.L.files) && (k in T.L.files ==> T'.L.files[k] == T.L.files[k])
  }

  ghost predicate OfOther(L: Layout, ts: TS, slot: Slot) {
    ts in L.owner && L.owner[ts].FilePlace? && L.owner[ts].slot != slot
  }

  ghost predicate SectorsKept(T: Tree, T': Tree, slot: Slot) {
    forall ts {:trigger OfOther(T.L, ts, slot)} :: OfOther(T.L, ts, slot) && ts in T.st.sec ==>
      ts in T'.st.sec && T'.st.sec[ts] == T.st.sec[ts] && ts in T'.L.owner && T'.L.owner[ts] == T.L.owner[ts]
  }

  ghost predicate InDir(L: Layout, ts: TS) {
    ts in L.owner && L.owner[ts].DirPlace?
  }

  /** The entry without the two bytes that are the link of the directory sector, if it is the first. */
  ghost function EntryBody(sec: Sector, i: nat): seq<byte>
    requires i < 8
  {
    EntryIn(sec, i)[2..]
  }

  ghost predicate EntriesKept(T: Tree, T': Tree, slot: Slot) {
    forall k: Slot {:trigger InDir(T.L, k.dir), k.entry} :: k != slot && InDir(T.L, k.dir) && k.entry < 8 && k.dir in T.st.sec ==>
      InDir(T'.L, k.dir) && k.dir in T'.st.sec && EntryBody(T'.st.sec[k.dir], k.entry) == EntryBody(T.st.sec[k.dir], k.entry)
  }

  lemma OthersTransitive(A: Tree, B: Tree, C: Tree, slot: Slot)
    requires OthersKept(A, B, slot) && OthersKept(B, C, slot)
    ensures OthersKept(A, C, slot)
  {
    hide EntryBody, InDir;
    assert forall ts :: OfOther(A.L, ts, slot) && ts in A.st.sec ==> OfOther(B.L, ts, slot);
  }

  /** Nothing but the set of free sectors changed. */
  lemma MapChange(A: Tree, B: Tree, slot: Slot)
    requires B.st.sec == A.st.sec && B.L == A.L
    ensures OthersKept(A, B, slot)
  {
  }

  /** A sector of the file itself, or one that nobody owns, was rewritten. */
  lemma SectorStored(A: Tree, B: Tree, slot: Slot, ts: TS, data: Sector)
    requires ts in A.st.sec && B.st.sec == A.st.sec[ts := data] && B.L == A.L
    requires ts in A.L.owner ==> A.L.owner[ts].FilePlace? && A.L.owner[ts].slot == slot
    ensures OthersKept(A, B, slot)
  {
  }

  lemma EntryChanged(A: Tree, B: Tree, slot: Slot, e: Entry)
    requires EntryStored(A.st, B.st, slot, e) && B.L == A.L && InDir(A.L, slot.dir)
    ensures OthersKept(A, B, slot)
  {
    hide EntryStored, EntryIn;
    EntryStoredFacts(A.st, B.st, slot, e);
    forall k: Slot | k != slot && InDir(A.L, k.dir) && k.entry < 8 && k.dir in A.st.sec
      ensures k.dir in B.st.sec && EntryIn(B.st.sec[k.dir], k.entry) == EntryIn(A.st.sec[k.dir], k.entry)
    {
      if k.dir == slot.dir {
        assert k == Slot(k.dir, k.entry) && slot == Slot(slot.dir, slot.entry);
      }
    }
  }

  lemma FileExtended(A: Tree, slot: Slot, ts: TS)
    requires slot in A.L.files && ts !in A.L.owner
    ensures OthersKept(A, Tree(A.st, WithFile(A.L, slot, ts)), slot)
  {
  }

  lemma FileAdded(A: Tree, slot: Slot, ts: TS)
    requires slot !in A.L.files && ts !in A.L.owner
    ensures OthersKept(A, Tree(A.st, NewFile(A.L, slot, ts)), slot)
  {
  }

  lemma FileDropped(A: Tree, slot: Slot)
    ensures OthersKept(A, Tree(A.st, WithoutFile(A.L, slot)), slot)
  {
  }

  lemma DirExtended(A: Tree, B: Tree, slot: Slot, ts: TS, linked: Sector, cleared: Sector)
    requires DirLinked(A.st, B.st, A.L, ts, linked, cleared) && B.L == WithDir(A.L, ts)
    requires DirOwned(A.L) && ts in A.st.sec && ts !in A.L.owner
    ensures OthersKept(A, B, slot)
  {
    hide EntryIn, Link;
    var last := A.L.dir[|A.L.dir| - 1];
    assert A.L.owner[last] == DirPlace(|A.L.dir| - 1);
    assert linked[2..] == A.st.sec[last][2..];
    assert B.st.sec[last] == linked by {
      assert last != ts;
    }
    forall i: nat | i < 8
      ensures EntryBody(linked, i) == EntryBody(A.st.sec[last], i)
    {
      SameBody(A.st.sec[last], linked, i);
    }
    forall k: Slot | k != slot && InDir(A.L, k.dir) && k.entry < 8 && k.dir in A.st.sec
      ensures k.dir in B.st.sec && EntryBody(B.st.sec[k.dir], k.entry) == EntryBody(A.st.sec[k.dir], k.entry)
    {
    }
  }

  lemma SameBody(sec: Sector, linked: Sector, i: nat)
    requires linked[2..] == sec[2..] && i < 8
    ensures EntryBody(linked, i) == EntryBody(sec, i)
  {
    assert forall k :: 2 <= k < 256 ==> linked[k] == linked[2..][k - 2] && sec[k] == sec[2..][k - 2];
  }

  // ----- what that means for another file -----

  /** The bytes of another file are what they were, at every stage of its chain. */
  lemma OtherFile(f: Disk, A: Tree, B: Tree, slot: Slot, k: Slot)
    requires Sound(f, A) && Sound(f, B) && OthersKept(A, B, slot) && k != slot && k in A.L.files
    ensures k in B.L.files && B.L.files[k] == A.L.files[k]
    ensures Unaltered(A.st.sec, B.st.sec, A.L.files[k])
    ensures k.entry < 8 && k.dir in A.st.sec && k.dir in B.st.sec
    ensures EntryBody(B.st.sec[k.dir], k.entry) == EntryBody(A.st.sec[k.dir], k.entry)
  {
    hide EntryIn, Linked, EntryBody, DirOk, DirOwned, OwnersReal, Ended;
    forall i | 0 <= i < |A.L.files[k]|
      ensures OfOther(A.L, A.L.files[k][i], slot)
    {
      assert A.L.owner[A.L.files[k][i]] == FilePlace(k, i);
    }
    assert FileOk(f, A.st, k, A.L.files[k]);
    assert InDir(A.L, k.dir) && k.entry < 8;
  }

  ghost predicate Unaltered(sec: map<TS, Sector>, sec': map<TS, Sector>, chain: seq<TS>) {
    Inside(sec, chain) && Inside(sec', chain) && forall i :: 0 <= i < |chain| ==> sec'[chain[i]] == sec[chain[i]]
  }

  lemma SameBytes(sec: map<TS, Sector>, sec': map<TS, Sector>, chain: seq<TS>)
    requires Unaltered(sec, sec', chain) && chain != []
    ensures FileBytes(sec', chain) == FileBytes(sec, chain)
    ensures Body(sec', chain[..|chain| - 1]) == Body(sec, chain[..|chain| - 1])
    ensures Ended(sec, chain) ==> Ended(sec', chain)
  {
    BodyFrame(sec, sec', chain[..|chain| - 1]);
  }
}
