# Verified models of the sd2iec file layers

This project describes, in Dafny, how the sd2iec firmware keeps files: inside Commodore disk images
(D64, D71, D81, and for the block map also DNP), in the EEPROM of the device, and on a FAT volume;
and how its data buffers move bytes between them. For each layer it proves what the layer promises to
the one above.

The programs change their state in place, and so do the models: a disk image drive, an EEPROM store, a FAT
window, an open file, a buffer pool are classes, and the loops of the source are loops with invariants. Each method
is tied by its postcondition to a simpler picture of the state, and the theorems are about that picture.

## The layers

**EEPROM file system** (`EepromLayout`, `EepromStructure`, `EepromStore`, `EepromFs`, `EepromRun`, `EepromAppend`, `EepromEmpty`,
`EepromModel`, `EepromSession`). The numbers of entries and
sectors and the sector size are symbolic: anything below 256. A *layout* names the entry chain and the sector list of
each file and, for every entry and sector, its only owner; `Structure` says that the stored directory is what the
layout says. From this follow disjoint acyclic chains, gap-free sector lists, and bitmaps that always equal what a
restart would compute. On top of it, contents round trip through any sizes of writes and reads, `EepromAppend` and
`EepromEmpty` say exactly when an append does what it should. `EepromModel` is a small file system on a map from names to bytes, which
computes every reply, the number of bytes accepted and the kind of refusal included, from the sizes of the files and the sectors and
entries left; `EepromSession` carries out any list of commands on any number of handles and proves that the store replies and ends as
that model does. A session stops only at a command that closes a handle not open, deletes a file in use, or repeats a write that got no
directory entry 225 times in a row.

**Disk images** (`Dxx*`). `DxxGeometry` and `DxxBam` are the formats and the block availability map as pure functions of an image;
`DxxCache` and `DxxDrive` are the two write-back map buffers, proved to present the same images as direct access would;
`DxxAlloc` is the choice of sectors, `DxxFormat` formatting, which makes a sound empty disk of any image. `DxxState` and `DxxVolume` reduce an image to the contents of its ordinary sectors and the
set of free ones, and `DxxLayout` to `DxxRuns` are the directory, the linked files, the byte loops of the bus handlers and
whole runs. `DxxSession` carries out any list of commands on any number of open buffers, with a map of files, their
names, types and times as its specification: files are named by the number of the command that created them, what is refused is refused for want of room, and a
session stops only at a command that reads, reopens or erases a file that is open. The invariant of a mounted image is that every counter equals the number of free bits of its track, and
that directory and file chains are disjoint, reserved and properly linked.

**FAT** (`Fat*`). `FatWindow` is the one-sector window shared by all mounted volumes, `FatTable` and `FatChains` are the packed table seen through
it, `FatAlloc` and `FatCount` take, free and count clusters. `FatFile` and `FatSeek` are the open file with its incrementally
kept position (`fptr`, `curr_clust`, `curr_sect`, `csect`), proved in `FatRuns` to behave as a byte sequence with a position, for whatever the file was opened.
Transfers have any size; whole sectors go past the window (`FatDirect`), and what that leaves in the window is part of the state. The formats
follow the Microsoft FAT32 File System Specification 1.03, sections "FAT Data Structure" and "FAT Type Determination".

**Buffers and copying** (`BufferPool`, `BufferRings`, `CopyPump`, `SdBits`). The pool with its two counts in one byte, rings of linked buffers
that share a channel number, the copy command with its two buffers, writing into a file of a disk image, and the bit-field reader for card registers
(SD Physical Layer Simplified Specification, section 5.3).

`Bits` holds bytes and bitmaps and ties the arithmetic used in the proofs to the machine operators, `Common` what several parts use.

## What is assumed

- Media are byte arrays and the bus is a byte stream. Reads and writes of a medium succeed; running out of space is modelled
  everywhere.
- A FAT volume was mounted: its numbers go together as `GeometryOk`, `FatOk` and `ClustersOk` say. The small disks of the counterexamples
  satisfy these, with the geometry given.
- Times written into directory entries, and whether a second map buffer can be had, are given from outside.
- Bytes are numbers from 0 to 255. Where the source wraps a byte, a 16-bit or a 32-bit number, the model says so.

## Where the code does less than it seems to promise

- **EEPROM append.** The code looks for the last sector of the file but does not store which slot it was in. That matters only when the
  next sector is needed: `EepromAppend.AppendThenRead` proves the append right if and only if the last entry of the file holds one sector,
  or nothing is appended, or the new bytes go into what is left of the last sector (`EepromAppend.AppendFits`). Otherwise the new sector goes over one of
  the file, and reading the file ends at the assertion that there is a next sector; `EepromAppend.FailingAppend` is an input. Appending
  anything to an empty file is never right: depending on a bit that is no sector's, the disk is called full or the first slot of the
  entry is left out (`EepromEmpty.AppendToEmpty`), and on a full disk the search does not end (`EepromEmpty.SearchGoesOn`).
- **EEPROM handles that are not open.** Closing one records its size in whatever entry it names; `EepromFs.Store.Close` asks for an open one.
- **FAT seek from the start of a cluster.** A seek to the start of the current cluster leaves the cluster field one ahead of what the next seek
  assumes. Reading and writing from there is right; the next seek is right if and only if it goes to that position, to 0, or to before the
  cluster before (`FatSeek.Seek`, both directions; `FatSeek.WrongSeek` is an input). A seek from position 0 into the last cluster below
  4 gigabytes is taken to stay in the current cluster, because 0 less one is the highest number: it is right if and only if that cluster
  is current. `FatRuns.Session` covers all sequences of commands but these seeks.
- **FAT transfers of whole sectors.** They go past the window, which is neither emptied nor filled anew. A write that is one run of sectors of a
  cluster leaves the window outdated if and only if that holds one of them with other bytes (`FatFile.FileHandle.Write`), until it
  is moved; a read or write that asks the window for that sector then finds the old bytes (`FatFile.FileHandle.Read`;
  `FatRuns.StaleRead` is an input for every file). Closing a file moves the window, and the rest of the program makes such transfers
  only for debugging.
- **FAT write after a full volume.** The sector counter goes from 0 to 255, and the data go to the next sector in line, which may be
  another file's: it is one of this file if and only if the number after its last cluster is in its chain (`FatFile.FileHandle.WriteBehind`).
- **FAT free count.** Freeing a chain keeps the count right if and only if the chain is proper (`FatAlloc.RemoveCount`). The
  scan of 16- and 32-bit tables counts zero reserved entries and misses 32-bit entries that are zero in their low 28 bits only; it is right if and
  only if there are as many of the one as of the other (`FatCount.RawIsZeros`; `FatCount.BlankMiscounts` is an input).
- **Last byte of a disk file.** A file whose last sector names byte 0 or 1 as its last one is sent with one byte more than it has
  (`DxxRead.SentIsContents`, both directions; `DxxRead.EmptyLastSector` is an input, and a copy of empty files makes such a file,
  `CopyPump.CopyThenSend`). If it names byte 0, an append loses its first byte (`DxxRuns.AppendFile`).
- **Sector search on a damaged map.** The counters alone tell which track will be searched (`DxxAlloc.ChosenTrack`); the sector found is a used one if and
  only if that track has no free sector (`DxxAlloc.GetNextSector`). `DxxAlloc.TakesUsedSector` gives an image.
- **Copying without a destination.** The copy loop does not ask whether the destination could be opened. If it could not, for instance on a full
  disk, every turn leaves everything as it was and the command does not end (`CopyPump.IdleTurn`).
- **Formatting a D71 without a new identification.** The counters of the second side are cleared but its bits are not, so that they are true
  afterwards only if nothing was free there before (`DxxFormat.Format`, both directions; `DxxFormat.SecondFormatMiscounts`).
- **Closing many buffers.** After one cleanup function fails, those of the later buffers are not called, though the comment promises it: all
  are called if and only if none but the last one fails (`BufferRings.Channels.FreeMultipleBuffers`). The buffers are freed in any case.

## Model

| member | source | states |
|---|---|---|
| Bits.PutBitAt | components/sd2iec/src/eeprom-fs.c:96-101 | Setting or clearing one bit gives that bit its new value and leaves every other bit of the number as it was. |
| Bits.SetBitTo | components/sd2iec/src/eeprom-fs.c:96-101 | In a packed bitmap, the bit asked for takes the new value, and reading any other bit of the map gives what it gave before. |
| Bits.TestAgrees | components/sd2iec/src/eeprom-fs.c:103-105 | The bit test by repeated halving, on which the proofs rest, is the machine test with a shifted mask. |
| Bits.OrAgrees | components/sd2iec/src/eeprom-fs.c:96-98 | Setting a bit arithmetically is the machine `or` with the mask. |
| Bits.AndNotAgrees | components/sd2iec/src/eeprom-fs.c:99-100 | Clearing a bit arithmetically is the machine `and` with the inverted mask. |
| EepromLayout.EntryWrite | components/sd2iec/src/eeprom-fs.c:127-170 | Storing the 32 bytes of an entry replaces that entry of the directory, no other, and no byte of any sector. |
| EepromLayout.SectorWrite | components/sd2iec/src/eeprom-fs.c:533-536 | Storing inside a sector changes that stretch of that sector only, and no directory entry. |
| EepromLayout.FlatWrite | components/sd2iec/src/eeprom-fs.c:533-544 | Writing right behind the first n bytes of a file, inside its last sector, makes its contents those n bytes and then the new ones. |
| EepromFs.Store.ReadEntry | components/sd2iec/src/eeprom-fs.c:114-117 | The buffer holds the wanted entry of the stored directory. |
| EepromFs.Store.WriteEntry | components/sd2iec/src/eeprom-fs.c:127-170 | However the buffer differs from what is stored, writing only the runs of different bytes leaves exactly the buffer in that entry; other entries and all sectors are untouched. |
| EepromFs.Store.MarkSector | components/sd2iec/src/eeprom-fs.c:208-216 | One sector changes its state in the bitmap, every other keeps it, and the free counter follows. |
| EepromFs.Store.NextFreeSector | components/sd2iec/src/eeprom-fs.c:226-239 | The result is free and every sector passed on the way, going round from the start, is used; the failure value means that all are used. |
| EepromFs.Store.NextFreeEntry | components/sd2iec/src/eeprom-fs.c:274-289 | The same for directory entries; the entry found is the only one that gets marked. |
| EepromFs.EntryTaken | components/sd2iec/src/eeprom-fs.c:274-289 | Marking a free entry makes one fewer of them. |
| EepromFs.Store.FindEntry | components/sd2iec/src/eeprom-fs.c:249-263 | Finds the live name entry with exactly this name, left in the buffer; failure means no file has the name. |
| EepromFs.Store.Init | components/sd2iec/src/eeprom-fs.c:309-331 | For every sound stored directory the rebuilt bitmaps and counter describe exactly the sectors and entries in use; sectors that were lost are free again. |
| EepromFs.Store.MarkEntry | components/sd2iec/src/eeprom-fs.c:321-329 | Marks the sectors of one live entry: what was met before in the scan plus what this entry lists. |
| EepromFs.Store.Format | components/sd2iec/src/eeprom-fs.c:333-350 | Whatever was in the memory, the result is a sound store with no files and all sectors free. |
| EepromFs.Store.Open | components/sd2iec/src/eeprom-fs.c:403-470 | Creating fails exactly if the name is taken or no entry is free, and otherwise adds one empty file and nothing else; opening succeeds exactly if the name is there, with the size recorded for it; opening changes nothing stored. A handle opened for appending stands in the last sector of the file, at the offset of its size, with slot number 0 whatever the slot is. |
| EepromFs.Store.CreateEntry | components/sd2iec/src/eeprom-fs.c:410-430 | A fresh name entry, the first free one, becomes an empty file of that name, ready to be written; the entry has twelve unused slots, the name, size 0, no flags and no link; all other files are as they were. |
| EepromFs.Store.SeekLastSector | components/sd2iec/src/eeprom-fs.c:439-459 | After the loop over the entries the handle stands in the sector of the last used slot of the last entry, at the offset of the size; the slot number found is never stored. |
| EepromFs.Store.LastUsedSlot | components/sd2iec/src/eeprom-fs.c:446-453 | The slot before the first unused one of the buffered entry, or slot 0. |
| EepromFs.AppendSeat | components/sd2iec/src/eeprom-fs.c:446-459 | Of the two ways a handle opened for appending can stand: it continues the file if and only if the last entry holds one sector, and has its next sector go over another one if and only if the last entry holds more (for a file closed with its size in its last sector). |
| EepromStructure.AppendOverwrites | components/sd2iec/src/eeprom-fs.c:525-530 | Whichever used slot of the last entry gets another sector, no entry lists the sector that was there any more. |
| EepromFs.Store.Write | components/sd2iec/src/eeprom-fs.c:484-548 | The bytes accepted follow the first `size` bytes of the file and nothing else in the store changes; all are accepted unless no sector or no entry is free, and then the error says which; a handle not open for writing changes nothing. What the file gets in sectors and entries is what the free ones lose. This for every handle that continues its file, and for one opened for appending as far as the last sector goes; beyond that the file has lost a sector, and all other files are still untouched. |
| EepromFs.Store.WritePiece | components/sd2iec/src/eeprom-fs.c:484-548 | One turn of the loop: a non-empty piece goes into one sector, or the error says what ran out and nothing is stored. |
| EepromFs.Store.FindPlace | components/sd2iec/src/eeprom-fs.c:493-531 | A handle at a sector boundary gets a new sector, any other stays in its sector; from a handle with the wrong slot number the new sector goes over one of the file. The new sector is the first free one going round from the one before. |
| EepromFs.Store.StoreChunk | components/sd2iec/src/eeprom-fs.c:533-544 | The stretch of the current sector takes the bytes, the directory and all other sectors stay, and position and size move on. |
| EepromFs.Store.GrowFile | components/sd2iec/src/eeprom-fs.c:493-531 | A free sector becomes the file's last one, in the next slot or in a new linked entry; on failure the stored memory is unchanged and the error names what ran out. From a wrong slot number only this file is touched. The sector is the first free one going round from the current one. |
| EepromFs.Store.TakeSector | components/sd2iec/src/eeprom-fs.c:503-530 | The free sector found is entered in the next slot, or in a new entry; if there is no entry the stored memory is unchanged, and the slot number in the handle has moved on all the same. |
| EepromFs.Store.EnterInEntry | components/sd2iec/src/eeprom-fs.c:525-530 | If the slot is the next one the file has one sector more; if it is a used one the sector in it is exchanged, and one more is in use that no file has. Bitmap, counter and directory agree either way. |
| EepromFs.Store.EnterInNewEntry | components/sd2iec/src/eeprom-fs.c:506-530 | A free entry, the first going round from the old one, is linked behind a full one and gets the sector in slot 0; without a free entry nothing changes. |
| EepromFs.Store.LinkEntry | components/sd2iec/src/eeprom-fs.c:508-519 | The entry reserved is the first free one going round; the old last entry gets the link and nothing else. |
| EepromFs.Store.Read | components/sd2iec/src/eeprom-fs.c:562-611 | Delivers exactly the contents from the position on, as many as asked for or as are left, across sectors and entries; the store is unchanged, and the handle is ready for the next call. The program ends at its assertion if and only if the recorded size is more than the sectors hold and the read gets to their end. |
| EepromFs.Store.StepOver | components/sd2iec/src/eeprom-fs.c:580-607 | At the end of a sector the handle moves to the next slot, at the end of an entry along its link, and always stands where the next byte of the file is; it finds no sector exactly if the file has none there though its size says so. |
| EepromFs.Store.Close | components/sd2iec/src/eeprom-fs.c:620-629 | A written file gets its size recorded and nothing else changes, also when the size is more than its sectors hold; a read one changes nothing. Asked of handles that are open: the code takes any other for a written one. The size stands in bytes 28 and 29 of the entry, low byte first, and no other byte of the directory has changed. |
| EepromFs.Store.Rename | components/sd2iec/src/eeprom-fs.c:639-659 | Fails exactly as the names demand and then changes nothing; success changes that one name only. Bytes 12 to 27 of its entry are the name, and no other byte of the directory has changed. |
| EepromFs.Store.Delete | components/sd2iec/src/eeprom-fs.c:671-702 | Succeeds exactly if there is such a file; then the file is gone, exactly its sectors are counted free again, and all other files are as before. |
| EepromFs.Store.EraseChain | components/sd2iec/src/eeprom-fs.c:679-699 | Following the links erases exactly the entries of the chain, frees exactly the sectors of the file, and ends. |
| EepromFs.Store.FreeEntrySectors | components/sd2iec/src/eeprom-fs.c:680-686 | The sectors listed in one entry are freed, no others. |
| EepromStructure.ScanFindsOwned | components/sd2iec/src/eeprom-fs.c:309-331 | In a sound directory the start-up scan finds precisely the sectors that belong to files. |
| EepromStructure.NoSharing | components/sd2iec/src/eeprom-fs.c:484-548 | No sector belongs to two files, or twice to one. |
| EepromStructure.ChainsApart | components/sd2iec/src/eeprom-fs.c:507-523 | Entry chains never meet and never run in a circle. |
| EepromStructure.BookkeepingUnique | components/sd2iec/src/eeprom-fs.c:309-331 | Bitmap and counter are determined by the stored directory: two descriptions of it agree on every sector and on the number of free ones. |
| EepromStructure.CreateKeeps | components/sd2iec/src/eeprom-fs.c:410-430 | A fresh name entry in an unused place keeps the directory sound. |
| EepromStructure.GrowInEntry | components/sd2iec/src/eeprom-fs.c:525-530 | A free sector in the next slot keeps the directory sound; the sector lists stay without gaps. |
| EepromStructure.GrowNewEntry | components/sd2iec/src/eeprom-fs.c:507-530 | So does a new linked entry that holds one free sector, behind a full one. |
| EepromStructure.DescribeKeeps | components/sd2iec/src/eeprom-fs.c:620-629 | New name or size bytes change nothing about chains and sectors. |
| EepromStructure.RemoveKeeps | components/sd2iec/src/eeprom-fs.c:679-699 | Erasing exactly the entries of a chain keeps the directory sound without that file. |
| EepromStructure.RemovedCount | components/sd2iec/src/eeprom-fs.c:680-686 | Removing a file makes as many sectors free as it had. |
| EepromStructure.SwapKeeps | components/sd2iec/src/eeprom-fs.c:525-530 | A free sector put over one of a file leaves a sound directory in which that one sector is exchanged. |
| EepromStore.CreateStep | components/sd2iec/src/eeprom-fs.c:410-430 | Creation as seen by a user: one more empty file under a new name. |
| EepromStore.ChunkAppends | components/sd2iec/src/eeprom-fs.c:533-544 | A chunk written into the last sector appends to this file's contents; names, sizes and all other contents stay. |
| EepromStore.DescribeStep | components/sd2iec/src/eeprom-fs.c:620-629 | Closing and renaming change one recorded size or name only. |
| EepromStore.RemoveStep | components/sd2iec/src/eeprom-fs.c:671-702 | Deletion as seen by a user: one file less, and the free counter higher by its number of sectors. |
| EepromStore.FreeMoves | components/sd2iec/src/eeprom-fs.c:484-548 | When one file changes its length, its sectors and the free ones are together as many as before. |
| EepromStore.SizesStaySmall | components/sd2iec/src/eeprom-fs.c:484-548 | No file can reach a size that does not fit the two bytes of its entry. |
| EepromStore.SwapStep | components/sd2iec/src/eeprom-fs.c:525-530 | Exchanging a sector touches only this file and loses one sector until the next start. |
| EepromStore.HeldBound | components/sd2iec/src/eeprom-fs.c:484-548 | The sectors of a file and the lost ones together are no more than there are. |
| EepromRun.WriteAll | components/sd2iec/src/eeprom-fs.c:484-548 | Any sequence of writes leaves the concatenation of the pieces, or ends with an error that says what ran out. |
| EepromRun.ReadAll | components/sd2iec/src/eeprom-fs.c:562-611 | Any sequence of reads gives the beginning of the contents, as long as the lengths together. |
| EepromRun.RoundTrip | components/sd2iec/src/eeprom-fs.c:403-629 | Create, write in pieces of any sizes, close, open, read in pieces of any sizes: what is read is the beginning of what was written. Creation is refused exactly for a taken name, and the other errors mean that sectors or entries ran out. |
| EepromAppend.AppendThenRead | components/sd2iec/src/eeprom-fs.c:403-629 | Open a closed file for appending, write, close, open, read all of it: with room for the bytes the result is the old contents and the new bytes if and only if the last entry of the file holds one sector, or there are no new bytes, or the size is no multiple of the sector size and the bytes fit what is left of the last sector. In all other cases the read ends at an assertion. |
| EepromAppend.OpenAndAppend | components/sd2iec/src/eeprom-fs.c:432-548 | Under that condition the bytes follow the old contents; otherwise the recorded size gets larger than what the sectors hold, and no other file is touched. |
| EepromAppend.CloseAndRead | components/sd2iec/src/eeprom-fs.c:432-629 | A closed file gives back its contents if and only if its sectors hold as many bytes as its size. |
| EepromAppend.FailingAppend | components/sd2iec/src/eeprom-fs.c:432-629 | The input that fails: on any new store with three sectors or more, the file of two full sectors with this name, closed, and one byte appended, which is accepted; the recorded size is one more than two sectors, and reading ends at the assertion. |
| EepromEmpty.SearchFromNowhere | components/sd2iec/src/eeprom-fs.c:226-239 | Searching from 255, which an empty file opened for appending has as its sector: the first bit looked at is no sector's. If it is clear the answer is that none is free, whatever is; if it is set, the first free sector is found. |
| EepromEmpty.SearchGoesOn | components/sd2iec/src/eeprom-fs.c:226-239 | With no sector free that search never ends: from any place it goes to a used sector, and never back to 255. |
| EepromEmpty.FirstTurn | components/sd2iec/src/eeprom-fs.c:484-548 | The first turn of a write there is refused without need, or puts the first free sector into slot 1 of the entry, with the bytes in it; then no layout describes the directory. |
| EepromEmpty.AppendToEmpty | components/sd2iec/src/eeprom-fs.c:432-548 | So appending any bytes to an empty file is never right: either nothing is written and a full disk is reported though sectors are free, or the stored directory is no longer sound. |
| EepromEmpty.NoLayout | components/sd2iec/src/eeprom-fs.c:484-548 | A live entry with an unused slot in front of a used one is that of no sound directory. |
| EepromSession.Begin | components/sd2iec/src/eeprom-fs.c:333-350 | A formatted store with any number of handles is the model without files and with all sectors and entries free: where every session can start. |
| EepromSession.Perform | components/sd2iec/src/eeprom-fs.c:403-702 | Each of creating, opening, writing, reading, closing, renaming and deleting, on any of several handles, replies exactly what the model replies, and changes the store as the model changes: how many bytes are accepted, and which of sectors and entries is said to have run out, is known beforehand. |
| EepromSession.Session | components/sd2iec/src/eeprom-fs.c:403-702 | Any list of commands on any number of handles has exactly the replies the model computes, and leaves the store as the model ends; it stops only at a command that closes a handle not open, deletes a file in use, or repeats a write refused an entry 225 times in a row. No sector is lost and no file torn. |
| EepromSession.PutRoom | components/sd2iec/src/eeprom-fs.c:484-548 | What a write took in sectors and entries, and the error it gave, are those the model computes from the room there was. |
| EepromModel.AcceptedIs | components/sd2iec/src/eeprom-fs.c:484-548 | A write that stops at a sector boundary only when something ran out has accepted exactly the number of bytes for which there was room, whatever the sizes were. |
| EepromModel.RefusedForWant | components/sd2iec/src/eeprom-fs.c:403-548 | The model says that sectors or entries have run out only of a command that wanted more, and only when none is left. |
| EepromModel.StaysCoherent | components/sd2iec/src/eeprom-fs.c:403-702 | Files being written have one writer, and readers opened meanwhile have nothing of them. |
| EepromModel.TwoWritesAndRead | components/sd2iec/src/eeprom-fs.c:403-629 | With room for the bytes, creating a file, writing twice, closing, opening and reading is carried out to the end in any state, and what is read is both pieces, one after the other. |
| DxxGeometry.LbaInjective | components/sd2iec/src/d64ops.c:190-217 | Every valid sector lies inside the image, and no two share a place. |
| DxxGeometry.LbaWindow | components/sd2iec/src/d64ops.c:190-217 | The closed formula agrees with laying out the tracks one after the other with the number of sectors each has. |
| DxxGeometry.BitsApart | components/sd2iec/src/d64ops.c:539-580 | No two sectors share a bit of the map, in all four formats. |
| DxxGeometry.CountersApart | components/sd2iec/src/d64ops.c:539-580 | No two tracks share a counter, and no counter lies in a bit field, also where a D71 keeps its second side. |
| DxxGeometry.BamSectors | components/sd2iec/src/d64ops.c:545-580 | The map sectors are exactly those in which some track has its bits or its counter. |
| DxxBam.AllocatedMarks | components/sd2iec/src/d64ops.c:702-735 | Allocating changes the free bit of that sector and no other, and no counter of another track; the own counter drops by one. |
| DxxBam.FreedMarks | components/sd2iec/src/d64ops.c:747-780 | Freeing does the reverse, likewise touching nothing else. |
| DxxBam.AllocateKeepsCounters | components/sd2iec/src/d64ops.c:702-735 | If every counter equals the number of free bits of its track, it still does after an allocation, for every map contents. |
| DxxBam.FreeKeepsCounters | components/sd2iec/src/d64ops.c:747-780 | The same for freeing. |
| DxxBam.FreeUndoesAllocate | components/sd2iec/src/d64ops.c:702-780 | Freeing a sector just allocated restores the image byte for byte. |
| DxxBam.ParallelCountIsOnes | components/sd2iec/src/d64ops.c:673-679 | The bit-parallel sum of a byte is the number of its ones, for all 256 bytes. |
| DxxBam.DnpByteCount | components/sd2iec/src/d64ops.c:638-690 | The ones of a DNP map byte are the free ones among its eight sectors, which stand in reverse order. |
| DxxBam.SectorsFreeIsCount | components/sd2iec/src/d64ops.c:660-690 | With true counters the number reported for a track is the number of its sectors that the bit test calls free. |
| DxxCache.SwapViews | components/sd2iec/src/d64ops.c:496-500 | Swapping the two map buffers changes nothing of what the cache presents. |
| DxxCache.FlushViews | components/sd2iec/src/d64ops.c:436-450 | Writing a buffer back changes the image but not what the cache presents. |
| DxxCache.LoadViews | components/sd2iec/src/d64ops.c:584-626 | Refilling a clean buffer loses nothing, given that the other one does not hold the same sector. |
| DxxCache.StoreViews | components/sd2iec/src/d64ops.c:702-735 | A byte changed in the buffer is that byte of that partition's map changed, and nothing else. |
| DxxCache.PlainView | components/sd2iec/src/d64ops.c:276-333 | Ordinary sectors are presented as they stand in the image: reading past the cache is right. |
| DxxCache.PlainWrite | components/sd2iec/src/d64ops.c:374-380 | Writing an ordinary sector past the cache shows as just that write. |
| DxxDrive.Drive.constructor | components/sd2iec/src/d64ops.c:478-489 | With empty buffers the images are presented as they are. |
| DxxDrive.Drive.BamBufferAlloc | components/sd2iec/src/d64ops.c:478-489 | A new map buffer holds nothing; there may be none. |
| DxxDrive.Drive.BamBufferFlush | components/sd2iec/src/d64ops.c:436-450 | Afterwards the buffer is clean, and no image looks different. |
| DxxDrive.Drive.BamCommit | components/sd2iec/src/d64ops.c:458-468 | Afterwards the stored images are what the cache presented. The buffers hold what they held and are clean. |
| DxxDrive.Drive.MoveBamWindow | components/sd2iec/src/d64ops.c:539-627 | The current buffer holds the map sector of the wanted track, positioned at its bits or its counter by number: on D41 the four bytes from 4 times the track in 18/0, for the second side of a D71 the bytes from 221 in 18/0 and the triples of 53/0, on D81 six bytes a track from 10 in 40/1 and 40/2, on DNP 32 bytes a track from 1/2. The other buffer has what was there, the two never hold the same sector, and no image looks different, also when no second buffer can be had. |
| DxxDrive.Drive.IsFreeSector | components/sd2iec/src/d64ops.c:638-650 | The answer is the bit of the image as presented, and which byte and bit that is, is said by number for each format. |
| DxxDrive.Drive.SectorsFreeOn | components/sd2iec/src/d64ops.c:660-690 | The number is that of the image as presented, a byte at a place said by number for each format with counters; 0 for tracks out of range. |
| DxxBam.MapPlaces | components/sd2iec/src/d64ops.c:545-580 | Over every image, the byte and bit of any sector and the byte of any counter, by number for the four formats, are what the model of the map says. |
| DxxDrive.Drive.CountBits | components/sd2iec/src/d64ops.c:672-680 | The 32 parallel counts add up to the number of free sectors of a DNP track. |
| DxxDrive.Drive.AllocateSector | components/sd2iec/src/d64ops.c:702-735 | Through the cache, exactly the one partition changes, by exactly an allocation. |
| DxxDrive.Drive.FreeSector | components/sd2iec/src/d64ops.c:747-780 | Through the cache, exactly the one partition changes, by exactly a freeing. |
| DxxAlloc.GetFirstSector | components/sd2iec/src/d64ops.c:818-849 | Success gives the lowest free sector of its track, off the directory track. With true counters it succeeds exactly if some track but the directory track has a free sector, and no such track is nearer to the directory, or as near and lower. |
| DxxAlloc.GetNextSector | components/sd2iec/src/d64ops.c:864-967 | It ends; the track is the one the search chooses, which the counters tell beforehand (`ChosenTrack`), and it succeeds exactly if one is chosen. The sector is in range, on the directory track exactly if the file is, and a used one if and only if the chosen track has no free sector. It is the first free one going round from the interleave, which is 10 on D41, 6 on D71 and 1 on D81, and 3, 3 and 1 on the directory track; behind the sector of the file, or behind sector 0 if the search for the track came round a side. On a closed form for the order of tracks (`Turn`), no track that counts a free sector comes before the chosen one. |
| DxxAlloc.ChosenStep | components/sd2iec/src/d64ops.c:916-940 | A step of the search away from a track that counts nothing free does not change which track will be chosen. |
| DxxAlloc.FindOnTrack | components/sd2iec/src/d64ops.c:954-967 | Going round a track from any start finds the first free sector if there is one, and else ends 99 sectors on. |
| DxxAlloc.NothingFree | components/sd2iec/src/d64ops.c:902-967 | An image with no free sector whose map counts one on track 1. |
| DxxAlloc.TakesUsedSector | components/sd2iec/src/d64ops.c:902-967 | The input on which the search goes wrong: on that image every file off the directory track gets a next sector, and the sector is in use. |
| DxxAlloc.NextSectorFree | components/sd2iec/src/d64ops.c:902-967 | With true counters the sector found is free. |
| DxxAlloc.NothingLeftMeansFull | components/sd2iec/src/d64ops.c:902-967 | With true counters giving up means that really no sector is free there. |
| DxxAlloc.CounterMeansFree | components/sd2iec/src/d64ops.c:660-690 | A true counter is positive exactly if the track has a free sector. |
| DxxAlloc.FreeBlocks | components/sd2iec/src/d64ops.c:1438-1477 | The number reported is the sum over the tracks, without the directory and map tracks; of a DNP image without the first 64 sectors of its first track; nothing changes. |
| DxxAlloc.FreeBlocksSame | components/sd2iec/src/d64ops.c:1438-1477 | With true counters that number depends only on which counted sectors are free. |
| DxxState.AllocateState | components/sd2iec/src/d64ops.c:702-735 | For the files, allocating takes one sector out of the free ones and changes no contents. |
| DxxState.FreeState | components/sd2iec/src/d64ops.c:747-780 | For the files, freeing adds one sector and changes no contents. |
| DxxState.StoreState | components/sd2iec/src/d64ops.c:374-380 | For the files, writing an ordinary sector changes its contents and neither the free ones nor the truth of the counters. |
| DxxState.OnePlace | components/sd2iec/src/d64ops.c:797-968 | Where a file begins, and where it goes on behind a sector, is determined by which sectors are free. |
| DxxVolume.Volume.CheckedRead | components/sd2iec/src/d64ops.c:276-281 | A read fails exactly for sectors that do not exist, and otherwise gives the contents. |
| DxxVolume.Volume.ImageWrite | components/sd2iec/src/d64ops.c:374-380 | The stretch of the one sector changes; other sectors, the map and all other images do not. |
| DxxVolume.Volume.FirstSector | components/sd2iec/src/d64ops.c:797-850 | Finds a free sector off the directory track exactly if there is one, and then the first in order: on the track nearest to the directory, the lower of two as near, the lowest sector. |
| DxxVolume.Volume.NextSector | components/sd2iec/src/d64ops.c:864-968 | What is found is free, on the right side of the directory track, and the one whose turn it is by track and interleave (`NextPlace`); failure means nothing is free where the file could grow to. |
| DxxLayout.ChainsApart | components/sd2iec/src/d64ops.c:1152-1205 | In a sound image file chains never meet each other, themselves or the directory, and hold no free sector. |
| DxxLayout.FreeIsUnowned | components/sd2iec/src/d64ops.c:1152-1205 | A sector marked free belongs to no file and not to the directory. |
| DxxLayout.ExtendKeeps | components/sd2iec/src/d64ops.c:1152-1205 | A file whose last sector links to a reserved, unowned sector can take it over: the image stays sound. |
| DxxLayout.CreateKeeps | components/sd2iec/src/d64ops.c:1534-1578 | An unused entry filled in for such a sector is a new file in a sound image. |
| DxxLayout.DescribeKeeps | components/sd2iec/src/d64ops.c:1207-1241 | Rewriting the entry of a file for the same first sector keeps the image sound. |
| DxxLayout.DeleteKeeps | components/sd2iec/src/d64ops.c:1591-1615 | Clearing an entry and freeing exactly its chain keeps the image sound without that file. |
| DxxLayout.DirGrows | components/sd2iec/src/d64ops.c:1035-1087 | A cleared sector linked behind the last directory sector extends the directory; every file keeps its place. |
| DxxFrames.OtherFile | components/sd2iec/src/d64ops.c:1152-1241 | An operation on one file leaves the chain, the sectors and the directory entry of every other file as they were. |
| DxxFiles.NextDirEntry | components/sd2iec/src/d64ops.c:979-1007 | Walks all entries of the directory in order, through its sectors, and ends after the last. |
| DxxFiles.ClearDirSector | components/sd2iec/src/d64ops.c:1074-1083 | The sector becomes an empty directory sector that ends the chain, and nothing else changes. |
| DxxFiles.FirstUnused | components/sd2iec/src/d64ops.c:1021-1026 | Finds the first unused entry, or the last sector of a directory in which all entries are used. |
| DxxFiles.FindEmptyEntry | components/sd2iec/src/d64ops.c:1018-1095 | Gives the first unused entry, or the first of a newly linked sector; fails only if all entries are used and nothing is free on the directory track, and then nothing has changed. No file and no sector off that track is affected. |
| DxxFiles.GrowDir | components/sd2iec/src/d64ops.c:1029-1087 | Links an empty, formerly free sector behind the directory, the one whose turn it is, or changes nothing if the track is full. |
| DxxFormat.Format | components/sd2iec/src/d64ops.c:2032-2106 | Whatever the image held, afterwards exactly the sectors reserved by its kind are used and all others free, the directory is one empty sector, the label and identification are the given ones, other sectors are blank or, without a new identification, unchanged off the directory track; other images are untouched. The header bytes of 18/0, and of 40/0, 40/1 and 40/2, are given by number: links, version, side and signature bytes, separators, name and identification. The counters are true if and only if all was cleared, or the image is no D71, or nothing was free on its second side. |
| DxxFormat.FormatD41 | components/sd2iec/src/d64ops.c:1931-1951 | Map and first directory sector are reserved, the label is in the map sector, and neither bits nor counters are disturbed by that. Sector 18/0 begins 18, 1, 0x41, and its label has the separators at 0xa9 and 0xaa. |
| DxxFormat.FormatD71 | components/sd2iec/src/d64ops.c:1953-1963 | Besides, the second map track is reserved, and the label stays. Byte 3 of 18/0 is 0x80. |
| DxxFormat.FormatD81 | components/sd2iec/src/d64ops.c:1965-2000 | Two map sectors, the label sector and the first directory sector are reserved; the map sectors get their signatures without harm to bits and counters. The header bytes of all three sectors are given by number. |
| DxxFormat.CopyLabel | components/sd2iec/src/d64ops.c:1917-1929 | The first 16 characters of the name up to a zero, filled with shifted spaces, and the identification stand at their offsets; bytes outside the 25 of the label are untouched. |
| DxxFormat.ClearTracks | components/sd2iec/src/d64ops.c:2064-2091 | Exactly the sectors of the wanted tracks are blank, map sectors included, and no image but this one changes. |
| DxxFormat.FreeAll | components/sd2iec/src/d64ops.c:2095-2099 | Every sector is free, and each counter is behind the number of free sectors by as many as were marked free before. |
| DxxFormat.AllocateRun | components/sd2iec/src/d64ops.c:1933-1934 | The first sectors of the track are used, all other bits stay, the counter drops by their number (not below zero), and no header byte of the map changes. |
| DxxFormat.HeaderStored | components/sd2iec/src/d64ops.c:1936-1948 | Bytes of a map sector outside bits and counters change neither which sectors are free nor any counter. |
| DxxFormat.FormattedSound | components/sd2iec/src/d64ops.c:2032-2106 | A formatted image is a sound one without files: the state every run of file operations can start from. |
| DxxFormat.FormattedBlocks | components/sd2iec/src/d64ops.c:1438-1477 | If the counters come out right, a formatted disk reports 664, 1328 or 3160 free blocks, by its kind. |
| DxxFormat.SecondFormatMiscounts | components/sd2iec/src/d64ops.c:2084-2099 | A D71 formatted once with and once without an identification always ends with wrong counters. |
| DxxFormat.NewDisk | components/sd2iec/src/d64ops.c:2032-2106 | Formatting with an identification gives a mounted, sound, empty disk with that number of blocks free, whatever was there before. |
| DxxWrite.OpenWrite | components/sd2iec/src/d64ops.c:1534-1578 | Creates a file of one formerly free sector, the first in order of all free ones off the directory track (`FirstPlace`). Its entry has the type as given, not yet closed, the number of that sector, the name filled up to 16 bytes, zeros, and the time; it fails only without a free sector off the directory track or without an entry; other files are untouched. |
| DxxWrite.WriteBlock | components/sd2iec/src/d64ops.c:1152-1205 | A full block is stored with a link to a free sector, which becomes the file's last and is the one whose turn it is behind the sector stored (`NextPlace`); without one it is stored as the file's end, and then nothing is free where the file could grow to. |
| DxxWrite.Flush | components/sd2iec/src/d64ops.c:1152-1205 | A full buffer is stored and starts afresh behind all that was accepted; without room the file ends with it. |
| DxxWrite.StoreLast | components/sd2iec/src/d64ops.c:1152-1205 | The buffer becomes the contents of the last sector of the file. |
| DxxWrite.LinkAndStore | components/sd2iec/src/d64ops.c:1152-1205 | The free sector the buffer links to becomes the file's last, with the buffer stored in the one before. |
| DxxWrite.BlockAddedHolds | components/sd2iec/src/d64ops.c:1152-1205 | After that the stored part of the file is all that was accepted so far. |
| DxxWrite.BlockAddedKeeps | components/sd2iec/src/d64ops.c:1152-1205 | Adding a block keeps the image sound, leaves other files alone and moves exactly one sector from free to used. |
| DxxWrite.LastStoredHolds | components/sd2iec/src/d64ops.c:1207-1241 | Storing the last block with the number of its last byte makes what was accepted the contents of the file. |
| DxxWrite.WriteCleanup | components/sd2iec/src/d64ops.c:1207-1241 | Closing ends the file with exactly what the buffer holds and completes its entry: closed, with time and number of blocks. Byte by byte, its name, first sector and other bytes are the ones from before, the type has its eighth bit set and no other changed, bytes 25 to 29 are the time, and 30 and 31 the number of blocks, low byte first. |
| DxxWrite.Describe | components/sd2iec/src/d64ops.c:1207-1241 | The entry of a file is completed; its sectors and all other files stay as they are. |
| DxxWrite.AddFile | components/sd2iec/src/d64ops.c:1550-1578 | A free sector and an unused entry become a new file. |
| DxxWrite.ClosedFacts | components/sd2iec/src/d64ops.c:1207-1241 | Closing changes neither the layout nor the free sectors nor any other file, and gives the entry the block count. |
| DxxRead.ReadBlock | components/sd2iec/src/d64ops.c:1103-1125 | Follows the link in the buffer; fails exactly if it names no sector, and knows whether the new block is the last and where it ends. |
| DxxRead.OpenRead | components/sd2iec/src/d64ops.c:1479-1495 | The buffer holds the first sector of the file. |
| DxxRead.SentIsContents | components/sd2iec/src/d64ops.c:1103-1125 | What a listener gets is the contents of the file, exactly if its last sector claims at least one byte. |
| DxxRead.EmptyLastSector | components/sd2iec/src/d64ops.c:1103-1125 | The input on which they differ: a file of one sector that names byte 0 or 1 as its last has no bytes, and one is sent. |
| DxxRead.ReadToLast | components/sd2iec/src/d64ops.c:1506-1532 | Ends at the last sector of the file. |
| DxxRead.ToWriter | components/sd2iec/src/d64ops.c:1515-1531 | The buffer continues behind the last byte of its block; a full block asks for a flush. |
| DxxRead.Append | components/sd2iec/src/d64ops.c:1506-1532 | A reopened file continues behind its last byte: the buffer is its last sector, positioned behind the byte that sector names, be it byte 0; the buffer and the stored sectors together hold the old contents, and the block count goes with the chain. In the entry the five bytes of the time have changed and no others. |
| DxxRead.Delete | components/sd2iec/src/d64ops.c:1591-1615 | The file is gone, its entry unused, exactly its sectors are free again, and every other file is as it was. In the entry the type alone has become 0. |
| DxxRead.FreeChain | components/sd2iec/src/d64ops.c:1591-1608 | Following the links frees exactly the sectors of the file, and ends. |
| DxxRuns.RunKeepsOthers | components/sd2iec/src/d64ops.c:1152-1615 | Over any run of creating, writing, closing and deleting, the image stays sound, and a file the run is not about keeps chain, sectors and entry. |
| DxxRuns.RunAccount | components/sd2iec/src/d64ops.c:1152-1615 | Over any run the sectors off the directory track that are free or belong to a file stay the same: none is lost, none appears. |
| DxxRuns.RunReturns | components/sd2iec/src/d64ops.c:1152-1615 | A run that ends with the files it began with ends with the same free sectors. |
| DxxRuns.BlocksFromSpace | components/sd2iec/src/d64ops.c:1438-1477 | The reported number of free blocks is determined by the free sectors off the directory track. |
| DxxRuns.ChainShort | components/sd2iec/src/d64ops.c:1207-1241 | No chain is longer than the disk, so that its length fits the two bytes of an entry. |
| DxxRuns.SizeIsLength | components/sd2iec/src/d64ops.c:1207-1241 | The block count in the entry of a closed file is the length of its chain. |
| DxxRuns.WriteFile | components/sd2iec/src/d64ops.c:1152-1241 | Creating, sending any bytes and closing gives a new file with just these bytes (an empty one holds a carriage return) and a true block count; it fails only if every free sector is on a track files do not move to, or no directory entry can be had. The entry, byte by byte, has the type with its eighth bit set, the first sector, the padded name, zeros, and the time. |
| DxxRuns.WriteThenRead | components/sd2iec/src/d64ops.c:1103-1241 | What is sent to a new file is what the file sends back, for every byte sequence; an empty one sends the byte 13. |
| DxxRuns.AppendFile | components/sd2iec/src/d64ops.c:1506-1532 | Appending gives the old contents and then the new bytes, of which the first one is lost if the last sector named byte 0; if the disk fills up, the old contents and the accepted part of the new ones. The file can be read afterwards exactly if it could before or bytes were kept. The entry keeps its name, first sector and other bytes; its type is marked closed, and it has the new time. |
| DxxRuns.OverFirst | components/sd2iec/src/d64ops.c:1506-1532 | The first byte for a last sector that names byte 0 goes over that number, and is no byte of the file. |
| DxxRuns.AppendThenRead | components/sd2iec/src/d64ops.c:1103-1241 | After an append to any ended file the file sends its old contents and then the bytes kept, if and only if it could be read before or bytes were kept. |
| DxxRuns.WriteThenDelete | components/sd2iec/src/d64ops.c:1438-1477 | Creating, filling and deleting a file leaves the number of free blocks, the files and the free sectors as they were. |
| DxxSession.Begin | components/sd2iec/src/d64ops.c:2032-2106 | A newly formatted disk with any number of buffers is the model without files. |
| DxxSession.Perform | components/sd2iec/src/d64ops.c:1103-1615 | Each of creating, reopening, sending bytes, closing, reading and erasing, with any number of files open at a time, replies and changes what a map of files replies and changes, in their bytes and in the name, type, time and closed mark that the directory has of each; creating and sending are refused only if the image then shows that there is no sector or no entry for it. |
| DxxSession.StepRefines | components/sd2iec/src/d64ops.c:1103-1615 | A step about one file leaves every other file, its entry, and every buffer of another file as the map has them. |
| DxxSession.StaysCoherent | components/sd2iec/src/d64ops.c:1103-1615 | Whatever is replied, files being written are not also closed, no two buffers write one file, and a created file keeps its number. |
| DxxSession.Session | components/sd2iec/src/d64ops.c:1103-1615 | Any list of commands, with files named by the number of the command that created them, does to the image what it does to the map of files: what is read is what was stored, every entry has the name and type its file was created with, the time of its last opening or closing, and bit 7 exactly if the file was closed or created with it, and every refusal is for want of room. It stops only at a command that reads, reopens or erases a file that is open. Other images are untouched, the image is sound at every point, and no sector off the directory track is lost or found. |
| DxxSession.LifeGoesOn | components/sd2iec/src/d64ops.c:1103-1615 | Whatever the replies, each next command of creating, storing, closing, reading and erasing a file is one a session carries out. |
| DxxSession.WholeLife | components/sd2iec/src/d64ops.c:1103-1615 | So that list is carried out to its end from every state, and unless creating or storing was refused, what is read is what was stored. |
| DxxWrite.PutByte | components/sd2iec/src/iec.c:358-375 | A byte received goes behind all earlier ones, flushing a full buffer first; if that fails the file ends with what was accepted before. |
| DxxWrite.Listen | components/sd2iec/src/iec.c:331-383 | All bytes sent are accepted in order, or the file ends with those accepted and nothing is free where it could grow to; other files are untouched. |
| DxxRead.SendBuffer | components/sd2iec/src/iec.c:424-485 | Sends from the position to the last byte in use, and at least one byte. |
| DxxRead.Talk | components/sd2iec/src/iec.c:423-500 | Sends the whole file, sector after sector, and ends the transfer at its last byte. |
| FatWindow.WrittenAllCopies | components/sd2iec/src/ff.c:99-144 | Writing one sector of a volume, with all copies if it is a table sector, keeps the copies of all mounted volumes equal. |
| FatWindow.ChangeView | components/sd2iec/src/ff.c:99-144 | Changing the window, outdated or not, shows as a change of that sector to what the window then holds and, for a table sector, of its copies, and of nothing else. |
| FatWindow.HeldSector | components/sd2iec/src/ff.c:99-144 | A window that was not written past never disagrees with what the disk appears to hold. |
| FatWindow.Window.MoveWindow | components/sd2iec/src/ff.c:99-144 | No disk looks different, whichever volume the window held before; the wanted sector is in the window, but one that the window holds already is not read again, though it may have been written past it. Sector 0 writes everything back. |
| FatWindow.Window.WriteBack | components/sd2iec/src/ff.c:122-132 | The stored disks become what they appeared to be, with all copies of the table equal. |
| FatWindow.Window.Store | components/sd2iec/src/ff.c:255-296 | A changed window is a changed sector with all its copies, and nothing else; its other bytes go with it. |
| FatWindow.Window.Touch | components/sd2iec/src/ff.c:183 | Marking the window changed does not change what the disk appears to hold, since the copies of the table are equal; of an outdated window the old bytes come back. |
| FatWindow.Window.WriteReserved | components/sd2iec/src/ff.c:177-203 | Writing a sector before the table changes that sector only and leaves the window empty. |
| FatWindow.Window.ReadPast | components/sd2iec/src/ff.c:1586-1592 | Sectors read past the window are those the disk appears to hold. |
| FatWindow.Window.WritePast | components/sd2iec/src/ff.c:1662-1668 | Sectors written past the window are what the disk appears to hold then; the window is outdated by it if and only if it holds one of them with other bytes. |
| FatWindow.RunAt | components/sd2iec/src/ff.c:1662-1668 | Each sector of such a run gets its part of the data, and no other sector of any volume changes. |
| FatTable.GetPut | components/sd2iec/src/ff.c:213-296 | An entry reads back as the value put there, cut to the width of the type. |
| FatTable.EntryBytes | components/sd2iec/src/ff.c:213-296 | Which bytes an entry of each type is made of: two of 12 bits share three bytes, one of 16 bits has its low byte first, and one of 32 bits as well, without the upper four bits. |
| FatTable.GetPutOther | components/sd2iec/src/ff.c:255-296 | No other entry changes, not even where two 12-bit entries share a byte. |
| FatTable.EndMarkIsNoCluster | components/sd2iec/src/ff.c:1002-1009 | The size limits of the types guarantee that the end mark is no cluster number, exactly as long as cluster numbers fit 28 bits, and that every cluster number fits its entry. |
| FatTable.TypeLimits | components/sd2iec/src/ff.c:1002-1009 | A volume has the 12-bit type exactly below 4085 clusters, and the 16-bit one exactly from there to below 65525. |
| FatChains.Place12 | components/sd2iec/src/ff.c:213-245 | The 16-bit sum with which the program finds a 12-bit entry names its place. |
| FatChains.Place16 | components/sd2iec/src/ff.c:213-245 | So does the one for 16-bit entries, in spite of the cut to 16 bits. |
| FatChains.Place32 | components/sd2iec/src/ff.c:213-245 | And the one for 32-bit entries. |
| FatChains.PutTable | components/sd2iec/src/ff.c:255-296 | Bytes set for one entry set that entry of the table and no other. |
| FatChains.FatFs.GetCluster | components/sd2iec/src/ff.c:213-245 | The entry as the table appears to hold it, or 1 for a number that is no cluster; nothing changes. |
| FatChains.FatFs.GetCluster12 | components/sd2iec/src/ff.c:227-232 | A 12-bit entry is right also if its two bytes lie in two sectors. |
| FatChains.FatFs.GetCluster16 | components/sd2iec/src/ff.c:234-236 | A 16-bit entry, found with sums cut to 16 bits, is that of the table. |
| FatChains.FatFs.GetCluster32 | components/sd2iec/src/ff.c:238-240 | A 32-bit entry without its unused upper four bits. |
| FatChains.FatFs.PutCluster | components/sd2iec/src/ff.c:255-296 | The one entry changes to the value cut to its width; nothing outside the copies of the table changes. |
| FatChains.FatFs.PutCluster12 | components/sd2iec/src/ff.c:269-279 | The same for an entry that straddles two sectors. |
| FatChains.FatFs.PutCluster16 | components/sd2iec/src/ff.c:281-284 | The two bytes of the entry change in the table as it appears, and no other byte. |
| FatChains.FatFs.PutCluster32 | components/sd2iec/src/ff.c:286-289 | The four bytes of the entry change, and no other byte. |
| FatAlloc.RemoveChain | components/sd2iec/src/ff.c:307-329 | On any table, cyclic ones included, it ends; exactly the clusters walked are set free, the count rises by their number, and failure means an entry of 1 was met. A known count is marked for writing once a cluster has been freed; the hint stays. |
| FatAlloc.WalkIsChain | components/sd2iec/src/ff.c:307-329 | From the first cluster of a proper chain the walk is exactly that chain. |
| FatAlloc.RemoveEnded | components/sd2iec/src/ff.c:307-329 | Removing a proper chain succeeds, frees exactly its clusters and keeps a right count right. |
| FatAlloc.RemoveCount | components/sd2iec/src/ff.c:307-329 | A right count stays right if and only if the freed chain had no cluster twice and none that was free. |
| FatAlloc.ClearedCount | components/sd2iec/src/ff.c:307-329 | Clearing a path makes as many entries free as it is long if and only if it is a proper one. |
| FatAlloc.FindFree | components/sd2iec/src/ff.c:360-371 | Going round once finds the first free cluster; "full" means that no cluster is free. |
| FatAlloc.LinkIn | components/sd2iec/src/ff.c:373-374 | The cluster taken ends the chain and the one before it points to it; every other entry stays. |
| FatAlloc.CreateChain | components/sd2iec/src/ff.c:340-385 | Follows a chain that goes on; otherwise takes the first free cluster behind the one to stretch or behind the hint, links it and marks it as the end with the mark of its type, with every other entry unchanged; "full" only if no cluster is free; a right count stays right. A cluster taken is the new hint, a known count is one less, and the information sector is then marked for writing; otherwise hint, count and mark stay. |
| FatCount.GetFree | components/sd2iec/src/ff.c:2170-2215 | A known count is returned as it is; otherwise the table is counted, up to the limit, and a complete count is kept. Only that count is then marked for writing, on FAT32. |
| FatCount.Count12 | components/sd2iec/src/ff.c:2179-2183 | The number of free 12-bit entries. |
| FatCount.CountRaw | components/sd2iec/src/ff.c:2184-2204 | The scan over whole sectors counts the zero entries, reserved ones included, stopping at the limit. |
| FatCount.RawIsZeros | components/sd2iec/src/ff.c:2184-2204 | The count is right if and only if the zero reserved entries are as many as the entries that are zero in their low 28 bits only. |
| FatCount.RawAccount | components/sd2iec/src/ff.c:2184-2204 | Up to any entry, the zero entries counted and the free clusters missed are together the free clusters and the zero reserved entries. |
| FatCount.BlankMiscounts | components/sd2iec/src/ff.c:2184-2204 | The input on which the count is wrong: a 16-bit table of zeros, for 4094 clusters, counts 4096. |
| FatCount.InfoRoundTrip | components/sd2iec/src/ff.c:1018-1031 | Mounting finds the counts that were written to the information sector. |
| FatCount.InfoBytes | components/sd2iec/src/ff.c:186-195 | Byte by byte: the three signatures, the number of free clusters at 488 and the hint at 492, low bytes first, and zeros elsewhere. |
| FatCount.InfoTaken | components/sd2iec/src/ff.c:1018-1031 | Of any sector, mounting takes the numbers at 488 and 492 if the bytes of the three signatures are there, and otherwise takes the count for unknown. |
| FatCount.Sync | components/sd2iec/src/ff.c:177-203 | The disks hold what they appeared to hold; on FAT32 the information sector, and only that, is rewritten with the counts; the bytes of an outdated window come back. Asked for a window on a writable sector, as all callers have it, which have just changed a directory sector. |
| FatCount.TakeThenSync | components/sd2iec/src/ff.c:177-203 | On FAT32, taking a cluster for a chain and then synchronising leaves an information sector that reads back as one free cluster less and the cluster taken. |
| FatLayout.ClustToSectIs | components/sd2iec/src/ff.c:395-404 | The computed sector is where the cluster lies when clusters are laid out one after the other. |
| FatLayout.SectorOfCluster | components/sd2iec/src/ff.c:395-404 | The computed sector is where the cluster lies, and 0 for a number that is no cluster. |
| FatLayout.SectorsDistinct | components/sd2iec/src/ff.c:395-404 | The sectors of a chain are different data sectors of the volume. |
| FatLayout.StoreInSectors | components/sd2iec/src/ff.c:1620-1694 | Writing inside one sector of a chain is writing that stretch of the file's bytes. |
| FatFile.FileHandle.AdvanceReading | components/sd2iec/src/ff.c:1570-1585 | At a sector boundary the handle moves to the sector of the next byte exactly if the chain has one; within a cluster and at the top of the file without a look at the table, so that the window keeps what it holds. |
| FatFile.FileHandle.NextCluster | components/sd2iec/src/ff.c:1573-1580 | At a cluster boundary the handle enters the next cluster of the chain exactly if there is one. |
| FatFile.FileHandle.ReadPiece | components/sd2iec/src/ff.c:1570-1602 | The bytes delivered are those found at the position, up to the end of their sector or of the whole sectors of their cluster, and the rest of the transfer finds what it found before. |
| FatFile.FileHandle.ReadThrough | components/sd2iec/src/ff.c:1597-1601 | Less than a sector comes out of the window: the bytes of the file, or what an outdated window has of them. |
| FatFile.FileHandle.ReadRun | components/sd2iec/src/ff.c:1586-1594 | Whole sectors come from the disk, as many as are wanted and left of the cluster, and are the bytes of the file. |
| FatFile.FoundAt | components/sd2iec/src/ff.c:1597-1601 | What a transfer finds differs from the file only in the sector first asked of the window, and only if the window was written past there. |
| FatFile.AskedOn | components/sd2iec/src/ff.c:1570-1602 | After a run of whole sectors the rest of a transfer asks the window for the same sector as before, and with another whole sector to come the cluster is at its end. |
| FatFile.FileHandle.Read | components/sd2iec/src/ff.c:1546-1610 | For any length, delivers the bytes from the position on, as many as asked for or as are left in the file, and moves the position by as many; nothing stored changes. They are the bytes of the file unless the sector it first asks of the window was written past that; then they are the window's there. |
| FatFile.FileHandle.NextOrNewCluster | components/sd2iec/src/ff.c:1646-1659 | The next cluster of the chain, or a formerly free one linked behind it; "full" only if none is free. |
| FatFile.FileHandle.FirstCluster | components/sd2iec/src/ff.c:1647-1651 | An empty file gets a formerly free cluster as its first. |
| FatFile.FileHandle.FollowingCluster | components/sd2iec/src/ff.c:1652 | The cluster after the current one, or a formerly free one linked behind it. |
| FatFile.FileHandle.StoreThrough | components/sd2iec/src/ff.c:1673-1683 | What fits the current sector replaces the bytes found at the position, and no others; the window holds the sector then. |
| FatFile.FileHandle.StoreRun | components/sd2iec/src/ff.c:1662-1670 | Whole sectors replace the bytes at the position, as many as there are and are left of the cluster, and no others; the window then agrees with the disk exactly if it holds one of them with the same bytes, or holds none and did before. |
| FatFile.RunFound | components/sd2iec/src/ff.c:1662-1670 | What the rest of the transfer finds has just those bytes changed. |
| FatFile.FileHandle.Finish | components/sd2iec/src/ff.c:1687-1689 | The size becomes the position if that is larger, and the handle is marked as written. |
| FatFile.FileHandle.WritePiece | components/sd2iec/src/ff.c:1643-1684 | As much as goes into the current sector, or whole sectors to the end of the cluster, is written there; the rest of the file as found, other files and the table entries outside the chain stay. |
| FatFile.FileHandle.Write | components/sd2iec/src/ff.c:1620-1694 | For any length, the accepted bytes stand at the old position, the size grows if needed, and all are accepted unless no cluster is free. All other bytes of the file stay, but for those of the sector first asked of an outdated window. Afterwards the window agrees with the disk unless the write was one run of whole sectors of one cluster, reached without a look at the table, and then exactly if it holds one of the sectors with the same bytes, or holds none and did before. A write that ends without an error, and could not run past the largest size, marks the handle as written, and no other changes the mark. |
| FatFile.FileHandle.WriteBehind | components/sd2iec/src/ff.c:1643-1645 | A write of less than a sector after one that found the volume full: the sector counter counts down from 0 to 255, and the bytes go to the next sector in line; it is one of the file exactly if the number after the last cluster is in its chain. |
| FatFile.BehindSector | components/sd2iec/src/ff.c:1643-1645 | That next sector is the first one of the cluster with the next number. |
| FatFile.Lengthened | components/sd2iec/src/ff.c:340-385 | A free cluster linked behind the last one makes a longer proper chain. |
| FatSeek.Seek | components/sd2iec/src/ff.c:1768-1855 | From every state a handle can be in, safe seeks lead to the position asked for, cut to the size for readers, with the cluster and sector fields that go with it; writers lengthen the file, or get as far as there are clusters. Unless the table has a broken entry, position and sector are those of the target if and only if the seek is safe: from the start of a cluster entered from inside, only to that position, to 0, or to before the cluster before; from position 0 into the cluster with the highest 32-bit number, only if that is the current one; from elsewhere always. An unsafe seek of a reader may fail, and otherwise the current sector is one cluster ahead. |
| FatSeek.SeekFar | components/sd2iec/src/ff.c:1799-1836 | Walking on from the current cluster, or from the first, reaches the cluster that holds the target. |
| FatSeek.SeekNear | components/sd2iec/src/ff.c:1794-1797 | A seek inside the cluster taken to be the same sets the sector fields for the target if that cluster is current, or current one ahead; from position 0 with another cluster current the fields are those of no place in the file. |
| FatSeek.SkipClusters | components/sd2iec/src/ff.c:1817-1834 | Skips whole clusters until the rest lies in one, lengthening the chain of a writer. |
| FatSeek.SetSector | components/sd2iec/src/ff.c:1837-1839 | In the source's signed-byte arithmetic the sector fields are those of the byte before the position; an offset of 0 gives the sector before the cluster. |
| FatSeek.Settle | components/sd2iec/src/ff.c:1844-1847 | A seek behind the end lengthens the file. It marks the handle as written exactly if the size has grown. |
| FatSeek.EnteredIsAhead | components/sd2iec/src/ff.c:1794-1802 | After a seek to the start of the current cluster the cluster field is one ahead of the one the next seek assumes. |
| FatSeek.AheadNowhere | components/sd2iec/src/ff.c:1794-1839 | Sector fields that are right one cluster further on are right for the position under no reading of them. |
| FatSeek.StaleNowhere | components/sd2iec/src/ff.c:1794-1797 | Nor are those of a cluster that is not the one of the target. |
| FatSeek.UnsafeSeek | components/sd2iec/src/ff.c:1794-1830 | Every unsafe seek from behind position 0 is from an entered cluster and is taken to start in the one before. |
| FatSeek.WrongSeek | components/sd2iec/src/ff.c:1768-1855 | The input that fails: on a small empty volume, a new file after seeks to 1500, 700, 512 and 600 stands at 600 with a sector of its third cluster, though the byte before is in the second. |
| FatSeek.SafeSeek | components/sd2iec/src/ff.c:1794-1830 | In every safe state the test for "same cluster" and the start of the walk agree with the file. |
| FatRuns.Step | components/sd2iec/src/ff.c:1546-1855 | One read, write or seek of any size, on a file opened for reading, writing, both or neither, does to the file as found what it does to a byte sequence with a position; what is found is what is there as long as the window agrees with the disk. |
| FatRuns.Session | components/sd2iec/src/ff.c:1546-1855 | Any sequence of them answers and leaves what the byte sequence with a position does, as it is found at each command: readers are stopped at the end, writers lengthen the file by seeking, what the file was not opened for is refused; it stops only on a full volume or a broken table. Only a write of whole sectors can make what is found differ from what is there. |
| FatRuns.PlainRun | components/sd2iec/src/ff.c:1546-1855 | As long as no whole sectors are written the whole sequence is that of a plain byte sequence with a position, from any state in which the window agrees with the disk. |
| FatRuns.StaleRead | components/sd2iec/src/ff.c:1620-1694 | The input that fails: on any file at position 0, after a byte, a seek to 0, a sector of other bytes, and a seek to 0 again, reading one byte gives the first byte, though the file begins with the sector. |
| FatRuns.OtherFile | components/sd2iec/src/ff.c:1620-1694 | A file that shares no cluster with the one written keeps its chain and its bytes, and still shares none. |
| BufferPool.HalvesApart | components/sd2iec/src/buffers.c:89-98 | With at most 15 buffers the low half of the counting byte is the number of user buffers and the high half the number of dirty ones. |
| BufferPool.AccountSet | components/sd2iec/src/buffers.c:89-98 | Changing one buffer changes the byte by that buffer's shares alone. |
| BufferPool.Pool.AllocSystemBuffer | components/sd2iec/src/buffers.c:106-118 | Takes the first free buffer, or none if all are taken; it has the number 100, and every flag, position and link is cleared. |
| BufferPool.Pool.AllocBuffer | components/sd2iec/src/buffers.c:127-135 | The same, counted as a user buffer and with the number 0. |
| BufferPool.Pool.AllocLinkedBuffers | components/sd2iec/src/buffers.c:147-187 | Takes and links the first run of free buffers of that length, each knowing the first and the size; fails exactly if there is no such run, and then nothing changes. |
| BufferPool.Pool.FindRun | components/sd2iec/src/buffers.c:150-170 | The run found is the first one that is long enough; a shorter count means there is none. |
| BufferPool.Pool.Chain | components/sd2iec/src/buffers.c:172-186 | The run is taken and linked, and every other buffer stays as it was. |
| BufferPool.Pool.constructor | components/sd2iec/src/buffers.c:66-80 | At the start only the error channel is in use, under number 15 and signalling the end, and the counts are right. |
| BufferPool.Pool.FreeBuffer | components/sd2iec/src/buffers.c:210-223 | The one buffer becomes free, counts included; no buffer, a free one and the error channel are left alone. |
| BufferPool.Pool.MarkBufferDirty | components/sd2iec/src/buffers.c:282-288 | Counted once, however often it is marked. |
| BufferPool.Pool.MarkBufferClean | components/sd2iec/src/buffers.c:297-304 | The reverse. |
| BufferPool.Pool.FindBuffer | components/sd2iec/src/buffers.c:265-273 | The first buffer in use with that number, or none if there is none. |
| BufferRings.Channels.FreeMultipleBuffers | components/sd2iec/src/buffers.c:236-255 | Every matching buffer is free afterwards and no other is touched, also when a cleanup fails; the result tells whether one failed. A cleanup that is due is called if and only if none before it failed, so that all due ones are called if and only if none but the last fails. |
| BufferRings.ActiveFound | components/sd2iec/src/fileops.c:679-694 | On the channel of a ring exactly its active member is found. |
| BufferRings.RingChanged | components/sd2iec/src/fileops.c:679-694 | Changing which member is active keeps one active buffer a channel, for all channels. |
| BufferRings.RingAdded | components/sd2iec/src/fileops.c:725-775 | A run of free buffers made a ring keeps all channels in order. |
| BufferRings.RingGone | components/sd2iec/src/fileops.c:705-712 | Freeing all buffers of a ring keeps all other channels in order. |
| BufferRings.Channels.constructor | components/sd2iec/src/fileops.c:724-775 | Without rings all channels are in order. |
| BufferRings.Channels.Refill | components/sd2iec/src/fileops.c:679-694 | The next member becomes active, after the last the first, at position 0; buffers outside the ring are untouched. |
| BufferRings.Channels.Close | components/sd2iec/src/fileops.c:705-712 | Every member of the ring is freed, each once, or the buffer of the file open there, and no other buffer; nothing is left on the channel. |
| BufferRings.Channels.FreeRing | components/sd2iec/src/fileops.c:705-712 | Following the links after freeing each buffer frees exactly the ring. |
| BufferRings.Channels.Open | components/sd2iec/src/fileops.c:808-818 | A channel in use, by a ring or by a file, is closed first; then it has a ring of the wanted size with its first member active, or there was no run of that length; no other buffer is touched. A buffer that is alone is positioned at 1, those of a larger ring at 0; number, links and flags of each are given as well. |
| BufferRings.Channels.OpenLarge | components/sd2iec/src/fileops.c:730-756 | A large buffer is a ring of side-by-side buffers of which the first is active and the last signals the end. |
| BufferRings.Channels.OpenSingle | components/sd2iec/src/fileops.c:757-775 | A single buffer is a ring by itself, positioned behind its first byte. |
| BufferRings.CycleIsModulo | components/sd2iec/src/doscmd.c:741-751 | Going round a ring n times step by step leads to member n modulo the size. |
| BufferRings.Channels.BufferPosition | components/sd2iec/src/doscmd.c:733-757 | Member n modulo the size of the ring becomes the active one, at the wanted byte; an unknown channel changes nothing. |
| BufferRings.Channels.SelectMember | components/sd2iec/src/doscmd.c:741-751 | Exactly the old and the new active member change their numbers. |
| CopyPump.Turn | components/sd2iec/src/doscmd.c:863-880 | Moves as many bytes as the source has and the destination takes, none into a full buffer, to the destination's position; leaves the source one short. |
| CopyPump.MakeRoom | components/sd2iec/src/doscmd.c:891-893 | A full destination buffer is written to the disk image; without a further sector the file ends with it. |
| CopyPump.Round | components/sd2iec/src/doscmd.c:860-894 | One turn and what follows it brings the loop nearer its end, and what the file and its buffer hold is always all that was taken from the sources. |
| CopyPump.TurnMoves | components/sd2iec/src/doscmd.c:863-880 | A turn moves nothing exactly if the destination is full or the source block used up; so the loop always gets on. |
| CopyPump.CopyFile | components/sd2iec/src/doscmd.c:860-894 | The whole source is handed on behind what the destination had, also when one ends on a full block and the next begins with it; without a further sector the destination ends with what was handed over. |
| CopyPump.CopyAll | components/sd2iec/src/doscmd.c:820-906 | All sources are handed on in order, with one destination. |
| CopyPump.Copy | components/sd2iec/src/doscmd.c:819-912 | The new file of the disk image has the bytes of the sources in order, for any sources and block sizes, and a true block count; it can be read if and only if there are any bytes. On a disk with too few sectors it has as much of the beginning as fills them. Its entry has the given name and type, marked closed, the first sector, and the time. |
| CopyPump.CopyThenSend | components/sd2iec/src/doscmd.c:819-912 | What the copy sends when it is read is the concatenation of the sources if and only if that is not empty. |
| CopyPump.IdleTurn | components/sd2iec/src/doscmd.c:860-894 | If the destination could not be opened, which the loop does not ask, every turn leaves everything as it was: the copy does not end. |
| CopyPump.StepSource | components/sd2iec/src/doscmd.c:887-889 | The step left out by the loop is made up, or the next block read: no byte is skipped or read twice. |
| SdBits.GetBits | components/sd2iec/src/sdcard.c:141-164 | For every buffer, start and length up to 32 the result, in 32-bit arithmetic, is the number whose digits are these bits, highest first. |
| SdBits.ValueSplit | components/sd2iec/src/sdcard.c:154-160 | A field of two parts is the first shifted by the length of the second, plus the second. |
| SdBits.TopBits | components/sd2iec/src/sdcard.c:157-160 | The first bits of a byte are the byte shifted right. |
| SdBits.LastBits | components/sd2iec/src/sdcard.c:147-152 | The last bits of a byte are what the mask leaves. |

## Left out

- DNP above the block map: its first-sector search leaves out the last track and its next-sector search need not end, so files, directories and subdirectories of DNP images are not modelled.
- The test for write-protected images, and REL files, whose positioning and records are a chapter of their own.
- Error-info blocks of images, and the branches of the map cache for failed reads and writes.
- Mounting and unmounting images, formatting of DNP images, reading and writing of map sectors past the cache.
- Aliasing inside the map cache: its two buffers are values that change places, not pointers into the buffer pool.
- DxxWrite.Listen: a file opened twice for writing, or deleted while open, is not modelled.
- DxxSession.Session: a file that is open is not read, reopened or erased, and a reopened file is one that can be read; finding a slot by name is part of the path and wildcard code.
- DxxLayout.ExtendKeeps: a sound image may also hold used directory entries that are no files of the model, such as REL files; nothing is said of them but that their sectors are not free or of another file.
- DxxRead.Delete: asks for an ended file; one whose writer never closed it may have a last sector that links anywhere.
- EepromFs.Store.Delete: entries set free stay marked as used until the next start, as in the code; the bitmap of entries is a superset of the live ones.
- EepromFs.Store.Write: a handle opened to append to an empty file is not among those covered; EepromEmpty.FirstTurn is about it.
- EepromAppend.AppendThenRead: bytes for an empty file are the business of EepromEmpty.AppendToEmpty, which follows the write to the end of its first turn; no later turn can fill the slot left out.
- EepromSession.Session: closing a handle that is not open, deleting a file in use and repeating a write after 225 refusals of an entry in a row (from where on the slot number in the handle may start over) end the session; appending is not among the commands.
- FatFile.FileHandle.Write: asks for a usable position; FatFile.FileHandle.WriteBehind says what becomes of the other one, for less than a sector, a file with clusters, and a next sector on the volume.
- FatSeek.Seek: after an unsafe seek the handle stands wrong, and nothing is said about reads and writes from there.
- FatRuns.Session: leaves out unsafe seeks, and ends when the volume is full; from position 0 it leaves out the cluster with the highest number also where that is current.
- FatCount.Sync: asks for a window on a writable sector, as all callers have it; with sector 0 in it, nothing would be written then, and its bytes later over sector 0.
- FatAlloc.CreateChain: volumes with more clusters than 28 bits can number are left out.
- FAT directories, long names, paths, attributes and truncation, and writing the directory entry of a file back.
- BufferRings.Channels.BufferPosition: channel numbers from 15 on, which would find the error channel or a waiting member of a ring, and buffers of open files, whose ring fields mean something else, are left out.
- BufferRings.Channels.FreeMultipleBuffers: the cleanup functions of files are known by their results only.
- CopyPump.Copy: name parsing, the check for mixed file types and records are left out, the source files are given as their blocks, and there is at least one; where the destination cannot be opened the method returns, and CopyPump.IdleTurn says what the loop does.
- The contents of pool buffers, LEDs and error messages.
- User interface, bus timing, fast loaders, SPI and SD commands, clock chips, display.
- Parsing of dates, numbers, wildcards and paths, and conversion of character sets.
