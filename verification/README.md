# A verified model of the operating-system lab programs

The Dafny files model three programs of the repository and prove what they are for.

**mini_ext2** (`project3/src`), a small file system in an array of 512-byte blocks. A class `Disk`
holds the blocks, the counters, the table of open files, the current directory and the user. A
ghost field `vol` is the typed reading of the blocks (two bitmaps, 256 inode records, data
blocks), and `trace` the readings of all images that the device has been in, one per block write;
`Valid` ties both to the real blocks. `Ok` adds that both counters equal the clear bits of their
bitmaps and agree with their copies on disk, and that the volume is *sound*: every non-zero
direct pointer, indirect pointer and table entry of all 256 records lies in the data area, has
its bit set, and equals no other pointer anywhere. On top of it come the byte sequence of a file,
the slot sequence of a directory, the walk of a path, the tree of all names, and the text files of
the account records.

**memsim** (`project2/part3`), a simulation of memory partitions with first, best and worst fit,
minimum slices, coalescing and compaction. A class `Simulator` holds the two linked lists, which
are sorted, merged, split and compacted by their links, and the settings; its invariant says that
the intervals tile the memory, that no two free ones touch, and that the free list is in the order
of the algorithm.

**The lock programs** (`project1`), as step machines in which each shared access is one step: the
test-and-set spinlock, the race without a lock, and the binary semaphore.

| files | what they hold |
|---|---|
| Layout, Records | bits, words, inode and directory records in blocks |
| Volume, Device, Geometry | the typed reading of the blocks, soundness, the disk and its trace, what lies where |
| Bitmap, InodeTable, FileIo, FileContent | allocation, inodes, block mapping, read and write |
| Directory, Paths, Namespace | slots, namei, the tree of names |
| Files, Format, Runs | open, mkdir, delete, format, whole runs |
| Text, Parsing, Store, Accounts, Sessions, Logins, Literals | the users file and the session file, their texts |
| Limits | what files take and give back, the largest file, the fullest directory |
| Deviations | inputs at which the file system fails |
| Intervals, Memory, Lists, Allocator, Simulation | memsim |
| Spinlock, Race, Semaphore | the lock programs |

## What the code does that its documentation does not say

The condition under which each of these happens is proved in both directions where the members
named first say so; the members of `Deviations` and `Logins` show it happening.

- `fs_open` for writing with the empty path creates an entry without a name that `namei` never
  finds (`Files.CreateResolves`: the created path resolves if and only if it is not empty;
  `Deviations.OpenEmptyPath`).
- `mkdir` on a full volume enters a directory that has no dots (`Files.MkdirNames`: the names
  form a tree if and only if a block was free; `Deviations.MkdirOnFullVolume`).
- `delete` of a path whose last part has more than 55 bytes frees the inode but leaves its entry
  (`Files.DeleteNames`, `Deviations.DeleteLongLeaf`); `namei` cuts the name, `dir_remove` compares
  it uncut.
- `delete` of a path whose way to the parent leads through the inode itself, as in `/d/../d`,
  empties the inode first; then the parent does not resolve, and the source goes on with an unset
  directory number (`Files.ParentResolves`: it resolves if and only if the way avoids the inode;
  `Deviations.DeleteThroughItself`).
- Once root has saved a session, another user who logs in does not get his own session saved: the
  file belongs to root with mode 0644 and the failure is not looked at (`Sessions.UsersLogin` says
  exactly when a session is saved; `Logins.LoginAfterRoot`, `Deviations.LoginNotSaved`).
  project3/README.md says that logins persist.
- For the same reason a user other than root cannot change his own password, although
  `users_change_password` has a branch for it (`Logins.OwnPassword`,
  `Deviations.OwnPasswordRefused`).
- `users_change_password` answers FS_OK although it loses records when the text does not fit
  (`Accounts.UsersChangePassword`: the file is complete if and only if the text fits;
  `Logins.ChangeLoses`, `Deviations.RecordLost`).
- `users_add` and `users_change_password` answer FS_OK for a name or password of 16 bytes or with a
  colon, with which nobody ever logs in (`Logins.AddLogin`, `Logins.ChangeLogin`: the pair logs in
  if and only if the line format can carry it).
- A colon in a name that is added makes a record of another name (`Logins.ColonName`: if and only if
  the three parts are short; `Deviations.OtherName`).
- `fs_format` creates `/.users` only (`Sessions.FsFormat`); project3/README.md names `/.session`
  as well.
- Without a lock every multiple of 100 from -100 N to 100 N is a possible result
  (`Race.FinalValues`), not 0 alone.

## Model

| member | source | states |
|---|---|---|
| `Layout.BitSetBit` | project3/src/bitmap.c:4-12 | Setting bit i of a bitmap block gives that bit the value and leaves the other 4095 bits alone; the bytes are changed by masks, the bits are numbered least significant first. |
| `Layout.PtrSetPtr` | project3/src/file.c:52-60 | Writing entry i of an indirect table changes that little-endian word and no other. |
| `Records.DecodeEncodeInode` | project3/include/fs.h:61-72 | The 128-byte record of an inode reads back as the same inode, field by field. |
| `Records.InodeAtPutInode` | project3/src/inode.c:17-22 | Patching one of the four records of a table block changes that record and leaves the other three as they were. |
| `Records.DirentAtPutDirent` | project3/src/dir.c:44-46 | Writing one 64-byte slot of a directory block: the slot reads back as inode, type and the first 55 bytes of the name; the other seven slots are unchanged. |
| `Records.DirentAtClear` | project3/src/dir.c:59 | Clearing a slot leaves an unused slot there and the other seven unchanged. |
| `Records.PaddedName` | project3/src/dir.c:44-45 | The NUL-terminated name in a slot is the first 55 bytes of the name that was stored. |
| `Device.CountersRoundTrip` | project3/src/fs.c:48-52 | The counters that a superblock and a group descriptor were written with are the ones that reading the two blocks returns. |
| `Geometry.SuperWords` | project3/src/fs.c:15-19 | The eleven words of the superblock as written: magic, block size, numbers of blocks and inodes, free counters, first data block, inode table, both bitmaps, root directory. |
| `Geometry.GroupWords` | project3/src/fs.c:22-23 | The five words of the group descriptor: both bitmaps, the inode table, the counters. |
| `Geometry.Located` | project3/src/bitmap.c:14-24 | Following words 8, 9, 7 and 6 of the superblock on the device leads to exactly the block bits, the inode bits, the 256 inode records and the data blocks; all blocks before the data are marked. |
| `Geometry.BitIs` | project3/src/bitmap.c:4-12 | Bit i of a bitmap is bit i % 8, the lowest first, of byte i / 8. |
| `Geometry.InodeFields` | project3/include/fs.h:61-72 | Each field of an inode lies at its offset in the record. |
| `Geometry.DirentFields` | project3/include/fs.h:74-79 | Inode, length 64, type and the padded name lie at their offsets in a directory slot. |
| `Device.Disk.DevReadBlock` | project3/src/dev.c:22-26 | A read in range returns the block and changes nothing; beyond the last block it is an error. |
| `Device.Disk.DevWriteBlock` | project3/src/dev.c:27-33 | A write in range replaces exactly that block, and is recorded as one image of the crash trace; beyond the last block nothing happens. |
| `Bitmap.BmapTest` | project3/src/bitmap.c:14-18 | Returns the selected bit of the selected bitmap. |
| `Bitmap.BmapSet` | project3/src/bitmap.c:19-24 | Changes the selected bit and nothing else of the volume, in one block write. |
| `Bitmap.AllocBlock` | project3/src/bitmap.c:26-39 | Takes the lowest clear bit from 69 on, fails exactly when the free counter is 0, and keeps both counters equal to the clear bits. |
| `Bitmap.FreeBlock` | project3/src/bitmap.c:40-46 | Clears the bit of a data block, ignores other numbers, and raises the counters only when the bit was set. |
| `Bitmap.AllocInode` | project3/src/bitmap.c:48-61 | Takes the lowest clear inode bit from 1 on, fails exactly when none is free, counters kept. |
| `Bitmap.FreeInode` | project3/src/bitmap.c:62-68 | Clears the bit of inodes 1 to 256 and raises the counters only when it was set. |
| `InodeTable.ReadInode` | project3/src/inode.c:11-16 | Returns the record of inodes 1 to 256; other numbers are an error. |
| `InodeTable.WriteInode` | project3/src/inode.c:17-22 | Replaces that record and nothing else of the volume, in one block write. |
| `InodeTable.InodeTruncate` | project3/src/inode.c:23-35 | Clears the bits of exactly the blocks the inode owned, data blocks and table, changes no other bit, raises the free counter by exactly their number, and leaves an empty record; the volume stays sound. |
| `Volume.DropSound` | project3/src/inode.c:23-35 | Giving back the blocks of one inode and emptying its record keeps every remaining pointer allocated and unshared. |
| `Volume.AddSlotSound` | project3/src/file.c:52-62 | A new pointer to an allocated block that nothing points to keeps all pointers allocated and unshared. |
| `Volume.BehindSound` | project3/src/file.c:205-245 | A record on disk that lacks some of the pointers of the copy in memory is sound when the copy is: this is what makes a crash, or an early return, before the inode is written harmless. |
| `Volume.OwnedDataSound` | project3/src/file.c:232-233 | Writing a data block of a file changes no pointer of any inode. |
| `Volume.OwnedIs` | project3/src/inode.c:23-35 | The blocks of an inode are exactly those that one of its 138 logical blocks maps to, and its table. |
| `FileIo.MapDirect` | project3/src/file.c:27-37 | The direct case: returns the block, or takes and zeroes a new one; fails only for lack of a free block. |
| `FileIo.MapTable` | project3/src/file.c:40-64 | The indirect case: takes a zeroed table and a zeroed block as needed; fails exactly when blocks run out, counting both. |
| `FileIo.MapBnForWrite` | project3/src/file.c:25-65 | The logical block is mapped afterwards, every other mapping and the bytes of mapped blocks stay, a new block is zero, errors exactly for lack of blocks or beyond block 137; each image on the way is sound. |
| `FileIo.MapBnForRead` | project3/src/file.c:68-80 | Returns the block of the abstract map or an error exactly where there is none; changes nothing. |
| `FileIo.FsClose` | project3/src/file.c:151-155 | Frees the slot of an open descriptor and no other; FS_EBADF otherwise. |
| `FileIo.FsSeek` | project3/src/file.c:157-161 | Sets the offset, a negative one to 0, of an open descriptor and of no other. |
| `FileIo.ReadLoop` | project3/src/file.c:180-196 | The loop over block pieces reads exactly what the byte-by-byte form reads, across block and direct/indirect boundaries, stopping at a hole. |
| `FileIo.FsRead` | project3/src/file.c:164-202 | Every error case with its condition; else the bytes of the simple form, the offset moved by their number, only the access time changed on disk, and that exactly when the offset is before the end. |
| `FileIo.ReadBytesAt` | project3/src/file.c:181-196 | The bytes read are those of the file in order, and a short read ends at a hole. |
| `FileIo.ReadAtSplit` | project3/src/file.c:164-202 | Reading a and then b bytes is reading a + b bytes, on any file, holes and end of file included. |
| `FileIo.ReadAtHoleFree` | project3/src/file.c:176-196 | On a hole-free file a read returns the requested part of the content up to the size. |
| `FileIo.WriteChunk` | project3/src/file.c:220-233 | One round of the loop: the bytes go to their place in the file and all others stay. |
| `FileIo.WriteLoop` | project3/src/file.c:219-237 | All bytes are laid over the file, or the loop ends with FS_ENOSPC having written a prefix of them; success exactly when the blocks needed, tables included, are free and in range. |
| `FileIo.FsWrite` | project3/src/file.c:205-245 | Every error case; success if and only if the bytes fit, in plain numbers FS_ENOSPC for a write that ends beyond byte 70656 and success for one that does not when each block touched, and one more, is free; then the bytes lie over the file at the offset, size, time and offset move, exactly the needed blocks are consumed; on failure no record changes and only bytes of its own range may differ; every image on the way is sound and other inodes keep their records and blocks. |
| `FileIo.FitsIs` | project3/src/file.c:25-65 | A write fits if and only if it ends within (10 + 128) * 512 bytes and the free blocks are at least the touched logical blocks that are absent, and one more for the table when it is missing and the write goes beyond 5120 bytes. |
| `FileIo.FitsPlenty` | project3/src/file.c:205-245 | Within 70656 bytes a write fits whenever there is a free block for each block touched and one more, and without any free block where all touched blocks are there. |
| `FileIo.NeededAtLeast` | project3/src/file.c:219-237 | A write needs at least the blocks, the table included, that its first logical block lacks. |
| `FileContent.WriteIsSplice` | project3/src/file.c:205-245 | At an offset up to the size the new content is content[..pos] + data + content[pos + len..]. |
| `FileContent.WriteKeepsHoleFree` | project3/src/file.c:205-245 | A hole-free file stays hole-free and within 138 blocks. |
| `FileContent.ReadBack` | project3/src/file.c:164-245 | Reading at the place that was written gives the bytes that were written, on any file. |
| `FileContent.WriteSeekRead` | project3/src/file.c:157-245 | Write, seek back, read: succeeds if and only if the descriptor is open for writing, the file may be written and the bytes fit, each error with its condition; then the same bytes come back, and the offset is behind them. |
| `FileContent.ReadTwice` | project3/src/file.c:164-202 | Two reads in a row succeed exactly when the descriptor is open on a readable inode, and then return and leave what one read of both lengths would. |
| `FileContent.OtherFile` | project3/src/file.c:205-245 | A change framed to one inode leaves record, mapping, bytes and content of every other inode. |
| `Directory.DirLookup` | project3/src/dir.c:22-36 | Refines the first match in the slot sequence: result and error for every directory number and name; nothing changes. |
| `Directory.FirstMatchIs` | project3/src/dir.c:27-34 | The first matching slot is the only index that matches with none matching before it. |
| `Directory.DirAdd` | project3/src/dir.c:37-50 | A directory of 80 slots refuses, one of less takes the entry whenever a block is free, and without a free block exactly when the slot is in a block that is there; then the slot sequence is the old one with the new entry at the end; in the failing cases the slots are intact; each image on the way has the old or the final listing. |
| `Directory.HasRoomIs` | project3/src/dir.c:10-20 | There is room for one more slot if and only if the size is below 80 * 64 bytes and the block of the next slot is there or one is free. |
| `Directory.DirRemove` | project3/src/dir.c:51-65 | Clears exactly the first matching slot, changes nothing when there is none, and never shortens the listing; each image on the way is sound. |
| `Directory.AddLookup` | project3/src/dir.c:22-50 | After adding an absent name its lookup returns the new child and no other name is looked up differently. |
| `Directory.RemoveLookup` | project3/src/dir.c:22-65 | After a removal every name that differs in its first 56 bytes is looked up as before. |
| `Directory.RemovedName` | project3/src/dir.c:51-65 | After a removal the name itself finds the next slot that matched it, or nothing. |
| `Directory.FrameList` | project3/src/dir.c:37-65 | A change framed to one inode leaves the listing of every other directory. |
| `Paths.FsNamei` | project3/src/dir.c:68-83 | The in-place scanner computes the walk along the segments of the path, cut to 55 bytes, with the errors of the lookups. |
| `Paths.ReadSegment` | project3/src/dir.c:74-75 | The inner loop yields the next segment, cut to 55 bytes, and stops at the slash or the end. |
| `Paths.SegmentsSplit` | project3/src/dir.c:68-83 | The segments of two paths joined by a slash are those of the first followed by those of the second. |
| `Paths.WalkSplit` | project3/src/dir.c:68-83 | Walking along joined segments is walking along the first and from there along the second. |
| `Paths.NameiLeaf` | project3/src/file.c:94-113 | namei of a path with a proper leaf is the lookup of the leaf in namei of the parent part, with the same cut on both sides. |
| `Namespace.LookupMember` | project3/src/dir.c:22-36 | In a tree of names every successful lookup leads to a member of the tree. |
| `Namespace.WalkMember` | project3/src/dir.c:68-83 | Every path that resolves from a member leads to a member, hence to an allocated inode of the stated type. |
| `Namespace.Dots` | project3/src/cli.c:55-56 | In a tree of names "." is found as the directory itself and ".." as its parent. |
| `Namespace.FileStepTree` | project3/src/file.c:205-245 | A change framed to a regular file, or to an inode outside the tree, keeps the tree. |
| `Namespace.BetweenTree` | project3/src/dir.c:37-50 | Every image between the first write of dir_add and its last keeps the tree. |
| `Namespace.AddedTree` | project3/src/dir.c:37-50 | Adding an entry for a new inode keeps the names a tree: every member but the root held by exactly one live entry of matching type, dots in place, no cycle. |
| `Namespace.CutTree` | project3/src/cli.c:111-123 | Removing the entry of a childless member and freeing its inode keeps the names a tree without it. |
| `Namespace.Childless` | project3/src/cli.c:111-123 | A directory of at most two slots has no child, so only directories without a live child are deleted, although slot counts never shrink. |
| `Namespace.WalkKept` | project3/src/dir.c:68-83 | If lookups in the members are kept, every path that resolved resolves to the same inode. |
| `Namespace.ParentWalkAvoids` | project3/src/cli.c:111-123 | The way to the parent of a member, if it has no "..", does not lead through the member itself. |
| `Namespace.WalkAvoids` | project3/src/cli.c:118-122 | A walk that does not lead through an inode finds the same after that inode is emptied. |
| `Namespace.WalkThrough` | project3/src/cli.c:118-122 | A walk that leads through an emptied inode and on fails. |
| `Files.NewInode` | project3/src/file.c:116-123 | Fails exactly when no inode is free; else the record of a fresh inode, outside every tree of names, is in place; each image is sound, and keeps the tree where there is one. |
| `Files.CreateFile` | project3/src/file.c:91-126 | Creation succeeds exactly when the parent resolves to a directory with room and an inode is free (for an allocated parent); the error otherwise; one new inode under the cut leaf, at most one block; each image on the way is sound, with or without a tree of names. |
| `Files.TakeFd` | project3/src/file.c:138-148 | The lowest free descriptor with offset 0, or an error exactly when all 64 are used. |
| `Files.OpenExisting` | project3/src/file.c:127-149 | An existing inode is opened exactly when the mode bits allow it and a slot is free. |
| `Files.FsOpen` | project3/src/file.c:84-149 | All cases: resolved paths open without a change of the volume; absent ones are created in writing mode, exactly when they can be entered: into an allocated directory of less than 80 slots whenever an inode and a block are free, into one of 80 slots never; a failed creation leaves the descriptors alone and leaks at most one inode; each image is sound; the names stay a tree. |
| `Files.CanEnterIs` | project3/src/file.c:100-131 | A file can be entered into an allocated parent if and only if its path has at most 255 bytes before the last slash, an inode is free, and the parent is a directory of less than 80 slots with its next block there or a block free. |
| `Files.CanMkdirIs` | project3/src/cli.c:43-59 | A directory can, under the same condition with one block more for its dots. |
| `Files.NameiOne` | project3/src/dir.c:68-83 | One name, cut to 55 bytes, is looked up in the current directory, and behind a slash in the root. |
| `Files.NameiDots` | project3/src/dir.c:68-83 | A path to a directory followed by "/." leads to the directory, and by "/.." to the one that holds it. |
| `Files.CreateResolves` | project3/src/file.c:84-136 | After creation namei of the path is the new inode if and only if the path is not empty; every path that resolved still does, to the same inode; the parent had no such name before. |
| `Files.AddDots` | project3/src/cli.c:55-56 | The two dots are written exactly when a block is free, first "." then ".."; an image in between never breaks the tree outside. |
| `Files.MakeDir` | project3/src/cli.c:53-56 | Fails exactly when no inode is free; else a new directory with its two dots, or empty when no block is free; each image is sound. |
| `Files.CmdMkdir` | project3/src/cli.c:43-59 | Succeeds exactly when the parent, if allocated, resolves to a directory that has room after the dots took their block, and an inode is free; inode and block cost; listing of the new directory and its entry; what a failure leaves behind; each image on the way is sound. |
| `Files.MkdirNames` | project3/src/cli.c:43-59 | Paths that resolved still do; the path leads to the new directory if and only if its leaf is not empty and it led nowhere before; the names form a tree with the new member if and only if a block was free for the dots. |
| `Files.ParentResolves` | project3/src/cli.c:118-122 | After the inode is emptied the parent part of the path resolves if and only if its way does not lead through that inode; otherwise the directory number is unset. |
| `Files.PlainDeletable` | project3/src/cli.c:111-123 | A path whose parent part has no ".." never leads through the inode that it names, so it may be deleted. |
| `Files.Discard` | project3/src/cli.c:118 | Gives back exactly the owned blocks and the inode, counters raised by exactly that. |
| `Files.CmdDelete` | project3/src/cli.c:111-123 | Which paths are refused and why; else blocks and inode are given back, the counters go up by exactly their number, then the first slot matching the uncut leaf is cleared in the directory that the parent part then resolves to. |
| `Files.DeleteNames` | project3/src/cli.c:111-123 | For a proper path the names form a tree without the inode, hence no dangling entry and no path to it, if the leaf has at most 55 bytes, and no tree at all if it has more; every path whose way avoids the inode leads where it led. |
| `Files.StepsEnd` | project3/src/dir.c:37-50 | All images of a creation, up to the entry in the parent, are sound and keep the old tree or are the final one. |
| `Limits.OwnedCount` | project3/src/inode.c:23-35 | On a sound volume an inode owns as many blocks as its map has entries, and its table. |
| `Limits.WrittenOwns` | project3/src/file.c:205-245 | A file written from its start owns exactly the blocks that the write needed. |
| `Limits.CreateWriteDelete` | project3/src/file.c:84-245 | Creating a file, writing it and deleting it, on any volume with a tree of names, restores both free counters, but for the block that its directory entry may have taken. |
| `Limits.LargestFile` | project3/src/file.c:25-65 | On a formatted volume of at least 211 blocks any content of up to 70656 bytes is written to a new file, across the border of the direct blocks at 5120, and read back; more is refused with FS_ENOSPC. |
| `Limits.FullDirectory` | project3/src/dir.c:37-50 | On a formatted volume of at least 149 blocks 77 files are created in the root directory one after the other, and the next is refused. |
| `Format.FormatVolume` | project3/src/fs.c:4-40 | Whatever the device held: pointers sound, counters true, metadata blocks reserved, one tree of names with the root alone. |
| `Format.ReserveMeta` | project3/src/fs.c:27-28 | Exactly the bits of blocks 0 to 68 are set. |
| `Format.CountPrefix` | project3/src/fs.c:27-34 | A range of bits of which exactly the first ones are set has as many clear bits as remain: what the counters that fs_format writes rest on. |
| `Runs.CmdCd` | project3/src/cli.c:71 | The current directory becomes what the path resolves to, or stays. |
| `Runs.Exec` | project3/src/cli.c:43-123 | One command does what it is for: the answer and the whole step, case by case, of open, mkdir, delete, write, read, seek, close, cd and a change of user, and of truncate, setting a size to 0, dir_add and dir_remove on their own. Failing or not, it keeps pointers sound and counters true; each image on the way is sound unless the command gives blocks back; a proper one keeps the names a tree and the current directory in it, and, when it removes nothing, the names of each image a tree. |
| `Runs.Run` | project3/src/cli.c:43-123 | Any sequence of commands: every state is the one before it with the command of that turn carried out and answered; pointers sound and counters true in every state; every block-write image of every command but delete and truncate sound, whatever the names and whatever else is in the run; every proper command on a tree of names leaves one, and so does each of its images when it removes nothing. |
| `Runs.RunNames` | project3/src/cli.c:43-123 | While every command is proper the names form a tree in every state of the run. |
| `Runs.FormatAndRun` | project3/src/fs.c:4-46 | From fs_format on, over whatever the device held, for every sequence of commands: the same, starting with the users file alone and a tree of names, and while every command is proper with a tree of names in every state. |
| `Runs.WriteTree` | project3/src/file.c:205-245 | All images of a write to a regular file keep the tree of names. |
| `Text.AtoiPrintInt` | project3/src/security.c:65 | atoi of a printed number, of either sign and followed by anything that is no digit, is the number. |
| `Text.ParseBody` | project3/src/security.c:47-67 | Parsing the printed line of a record with fields under 16 bytes without colon, newline or NUL returns the record. |
| `Text.ParsedPlain` | project3/src/security.c:47-67 | Whatever is parsed from a line without newline and NUL has fields under 16 bytes without colon. |
| `Text.UsersPrintAll` | project3/src/security.c:143-160 | Splitting and parsing the text of printed records returns the records in order. |
| `Text.UsersPlain` | project3/src/security.c:143-160 | Every record read from any NUL-free text has plain fields. |
| `Text.ParseAllInt` | project3/src/security.c:65 | Every uid read from any text, digits beyond the range included, is an int of 32 bits. |
| `Text.LoginExists` | project3/src/security.c:153-156 | The scan accepts a pair exactly when some record holds it. |
| `Text.AddedUser` | project3/src/security.c:180-205 | The uid max + 1 keeps all uids distinct and the new pair logs in with it. |
| `Text.ChangedPassword` | project3/src/security.c:227-248 | After the replacement the name logs in with the new password and no other; every other name as before. |
| `Text.SessionRoundTrip` | project3/src/security.c:83-115 | Parsing a printed session with a plain user name returns its uid and user, and the text fits the buffer. |
| `Parsing.ParseSplit` | project3/src/security.c:47-67 | A line with two colons, split at the first two, is a record if and only if its three fields have less than 16 bytes each; then it holds the fields. |
| `Parsing.ParseNoPair` | project3/src/security.c:47-52 | A line with at most one colon is no record. |
| `Parsing.SplitLine` | project3/src/security.c:47-56 | Every line is of one of these two kinds. |
| `Parsing.ClipParses` | project3/src/security.c:147-150 | Cutting a line to 255 bytes does not change what it is read as. |
| `Parsing.UsersSplit` | project3/src/security.c:143-160 | The records of a text are those of its first lines and then those of the rest. |
| `Parsing.LineCounts` | project3/src/security.c:143-160 | A line contributes its record, if it is one, wherever it stands, and a malformed line nothing. |
| `Parsing.BadLineSkipped` | project3/src/security.c:49-58 | A text with a line of at most one colon, or with a field of 16 bytes or more, reads as the text without that line. |
| `Parsing.DigitsDecimal` | project3/src/security.c:200-201 | Numbers are printed in base 10, the highest digit first. |
| `Parsing.AtoiReads` | project3/src/security.c:65 | atoi skips spaces, takes a sign and reads the digits up to the first byte that is none. |
| `Parsing.AtoiNone` | project3/src/security.c:65 | Without a digit behind spaces and sign it is 0. |
| `Parsing.LoginFirst` | project3/src/security.c:143-160 | Of several records with the pair the first gives the uid. |
| `Parsing.MaxUidIs` | project3/src/security.c:180-200 | The uid counted up by users_add is the greatest of all records, at least 0. |
| `Parsing.SessionWithout` | project3/src/security.c:98-113 | A session text without "user:" has no user, one without "uid:" the uid 0. |
| `Parsing.SessionUser` | project3/src/security.c:104-112 | The user is what follows the first "user:" up to the end of its line, at most 15 bytes. |
| `Parsing.SessionUid` | project3/src/security.c:101-102 | The uid is the number behind the first "uid:". |
| `Literals.PathTexts` | project3/src/security.c:70-145 | The paths of both files, ".", ".." and the writing mode are these texts. |
| `Literals.RecordTexts` | project3/src/security.c:83-135 | The first line of the users file and the keys of the session are these texts. |
| `Literals.LineTexts` | project3/src/security.c:83-206 | The session text and a line of the users file, for any user, byte by byte. |
| `Literals.Modes` | project3/src/file.c:13-22 | Under the modes of files and directories everybody may read, and exactly the owner and root may write. |
| `Store.ReadAll` | project3/src/security.c:13-25 | The loop of 4096-byte reads terminates with what one unbounded read returns. |
| `Store.ReadWholeFile` | project3/src/security.c:8-29 | Every result with its condition for any path; the bytes up to the size or the first hole; descriptors are as before and only the access time changed. |
| `Store.ReadStored` | project3/src/security.c:8-29 | A stored hole-free file is returned in full; failure exactly for lack of permission or of a descriptor. |
| `Store.WriteEnd` | project3/src/security.c:41 | Writing at the end of a stored file appends, or leaves the file as it was; exactly when it fits. |
| `Store.AppendLine` | project3/src/security.c:32-44 | The file is the old one followed by the line, or unchanged, with the exact condition of each result. |
| `Store.CutSize` | project3/src/security.c:74-80 | Setting the size of inodes 1 to 256 to 0 changes nothing else of the volume, in one block write; other numbers are an error. |
| `Store.CutToZero` | project3/src/security.c:74-80 | Setting the size to 0 and seeking to 0 leaves an empty file that keeps its blocks. |
| `Store.StoredOther` | project3/src/security.c:70-87 | Writing one file leaves every other stored file as it was. |
| `Store.FitsPiece` | project3/src/security.c:227-248 | If the whole text fits, each line fits at its turn and the rest fits after it. |
| `Store.FitsWhole` | project3/src/security.c:227-248 | Conversely lines that fit one after the other fit as a whole. |
| `Store.FileStepKept` | project3/src/security.c:32-87 | A change to one regular file leaves every path, and every other stored file with its record. |
| `Accounts.ScanLogin` | project3/src/security.c:142-160 | The in-place line scan of the login computes the first record with the pair, for any text. |
| `Accounts.ScanAdd` | project3/src/security.c:180-199 | The scan of users_add finds whether the name is taken and the largest uid, for any text. |
| `Accounts.UsersAdd` | project3/src/security.c:174-206 | Every result with its exact condition; the file gets the new line or stays, with its owner and mode; every other stored file and every path stay. |
| `Accounts.AddThenLogin` | project3/src/security.c:138-206 | The text of users_add is that of the records and the new one, uids are distinct, and the pair logs in with the new uid. |
| `Accounts.OnlyPlainLogsIn` | project3/src/security.c:138-171 | A pair that the line format cannot carry never logs in, whatever the file holds. |
| `Accounts.RewriteUsers` | project3/src/security.c:226-248 | The rewriting loop leaves some of the records, in order, with the password of the name replaced: all of them if and only if the text fits. |
| `Accounts.UsersChangePassword` | project3/src/security.c:209-252 | Every result with its exact condition; on failure the file stays, on success it is rewritten, completely if and only if it fits; owner, mode, every other stored file and every path stay. |
| `Accounts.ChangeThenLogin` | project3/src/security.c:138-252 | In the rewritten text the name logs in exactly with the new password, every other pair as before. |
| `Sessions.OpenOrCreate` | project3/src/security.c:71-72 | Opens the stored file, or creates it empty exactly when it can be entered, with its record; other stored files stay. |
| `Sessions.WriteWhole` | project3/src/security.c:74-85 | Truncating and writing leaves exactly the line, also over a longer old file, or an empty file when it does not fit. |
| `Sessions.SessionSave` | project3/src/security.c:70-87 | Every result with its condition, for an existing and for an absent file; on success the file is exactly the printed session; a new file belongs to the user; other stored files stay. |
| `Sessions.SessionLoad` | project3/src/security.c:89-121 | Every result with its condition; on success uid and user are those of the session text, else both stay. |
| `Sessions.SaveThenLoad` | project3/src/security.c:70-121 | The text of a saved session parses to the same uid and user. |
| `Sessions.UsersLogin` | project3/src/security.c:138-171 | Succeeds exactly when the file is readable, a descriptor is free and some record holds the pair; sets uid and user; whether the session is saved, exactly, for an existing and an absent file; owners and modes of both files. |
| `Sessions.RootSessionStays` | project3/src/file.c:17-21 | A file that root created is writable exactly by root (and by uids that are multiples of 65536), readable by all. |
| `Sessions.UsersBootstrap` | project3/src/security.c:124-135 | An existing users file stays; else every result with its condition, the record and entry of the new file, and root alone in it when there is room. |
| `Sessions.RootLine` | project3/src/security.c:131 | The text written holds exactly root with password root and uid 0. |
| `Sessions.FsFormat` | project3/src/fs.c:4-46 | Formatting leaves a sound volume whose root directory holds the users file alone, owned by the user, with root in it when there is one more block, exact counters, and no session file. |
| `Sessions.OnlyThree` | project3/src/fs.c:36-43 | No name but the dots and the users file is found on a formatted volume. |
| `Logins.SaveLoad` | project3/src/security.c:70-121 | session_save, then session_load: the same uid and user whatever the file held, exactly when the file may be read. |
| `Logins.AddLogin` | project3/src/security.c:138-206 | The exact results of users_add by root; after one that succeeded any pair logs in if and only if it did before or the new line holds it: the new pair, with the new uid, if its fields are short and without colon and newline, and nothing if they are too long. |
| `Logins.AddedRecords` | project3/src/security.c:174-206 | The records of the file after users_add are the old ones and those that the new line is read as. |
| `Logins.LineOfNew` | project3/src/security.c:200-206 | The line of a name and password without colon and newline is read as the new record if both have less than 16 bytes, and as none otherwise. |
| `Logins.ColonName` | project3/src/security.c:47-67 | The line of a name with a colon is read as a record of the part before it with the part behind it as the password, exactly when these and what is left have less than 16 bytes. |
| `Logins.ChangeLogin` | project3/src/security.c:138-252 | After users_change_password by root whose text fits, the pair logs in if and only if the line format can carry the password and the name is there; if it can, the name logs in with no other password and every other pair as before. |
| `Logins.ChangeLoses` | project3/src/security.c:209-252 | When the text does not fit, and names differ, users_change_password answers FS_OK, the file reads back as some of the records in order, and the name of at least one user is gone from it. |
| `Logins.LoginAfterRoot` | project3/src/security.c:138-171 | Root logs in exactly when the users file is readable and a descriptor is free, and makes the session file; the next user logs in exactly when his pair is in the file, is refused his session if and only if his uid is no multiple of 65536, and then session_load restores root. |
| `Logins.OwnPassword` | project3/src/security.c:138-216 | Where the users file is as fs_format leaves it: the login succeeds exactly when the file is readable, a descriptor is free and the pair is in it, and then the change of the own password is refused if and only if the uid is no multiple of 65536. |
| `Deviations.OpenEmptyPath` | project3/src/file.c:84-136 | On a formatted volume opening the empty path for writing makes an entry with an empty name, and namei still rejects the path. |
| `Deviations.MkdirOnFullVolume` | project3/src/cli.c:43-59 | On a formatted volume of 71 blocks mkdir of /d succeeds, the directory is empty, and no tree fits the names. |
| `Deviations.DeleteLongLeaf` | project3/src/cli.c:111-123 | On a formatted volume a file with a leaf of more than 55 bytes is created and deleted: the inode is free, its entry is still there, and no tree fits the names. |
| `Deviations.DeleteThroughItself` | project3/src/cli.c:111-123 | On a formatted volume delete of /d/../d after mkdir of /d gives the directory back, and then the parent does not resolve. |
| `Deviations.LoginNotSaved` | project3/src/security.c:138-171 | On a formatted volume of more than 71 blocks, for any plain name other than root: users_add, the login of root and the login of the new user all succeed, the session of the user is refused with FS_EPERM, and session_load makes the caller root. |
| `Deviations.OwnPasswordRefused` | project3/src/security.c:209-216 | On the same volume the new user logs in, and the change of his own password is refused with FS_EPERM. |
| `Deviations.OtherName` | project3/src/security.c:174-206 | On a formatted volume users_add of the name a:b with the password c succeeds, and then the name a, which nobody added, logs in with the password b. |
| `Deviations.RecordLost` | project3/src/security.c:209-252 | On a formatted volume of 71 blocks users are added until the first block of the users file is full; then a password of 15 bytes for root is answered with FS_OK and the name of a user is gone. |
| `Intervals.SplitTiles` | project2/part3/memsim.c:217-221 | Splitting an interval of a tiling in two keeps the tiling. |
| `Intervals.MergeTiles` | project2/part3/memsim.c:182-184 | Joining two adjacent intervals of a tiling keeps the tiling. |
| `Intervals.CoalescedUnique` | project2/part3/memsim.c:177-186 | Disjoint intervals of which none touch are determined by the addresses they cover. |
| `Intervals.SortedUnique` | project2/part3/memsim.c:120-126 | A list in the order of an algorithm is determined by its intervals. |
| `Intervals.SumPermuted` | project2/part3/memsim.c:234 | The sum of sizes does not depend on the order. |
| `Intervals.SortedTilesChain` | project2/part3/memsim.c:133-143 | A tiling sorted by address is gap-free and its sizes add up to the whole. |
| `Lists.RunEnd` | project2/part3/memsim.c:138 | The inner loop of the sorts ends at the last node of the run that is not above the new one. |
| `Lists.Insert` | project2/part3/memsim.c:137-139 | Relinking one node before the head or behind that run gives the list with the node inserted, still in order. |
| `Lists.SortInPlace` | project2/part3/memsim.c:133-175 | The insertion sorts move the nodes by their links alone: the same nodes and data, an ordered permutation, for any total order. |
| `Lists.Absorb` | project2/part3/memsim.c:183 | Unlinking the next node and adding its size to this one gives the list with the two intervals made one. |
| `Lists.MergeInPlace` | project2/part3/memsim.c:177-186 | The merging loop over the links leaves a sorted, coalesced list that covers the same addresses, and the tiling with the rest. |
| `Lists.LinkedList.Append` | project2/part3/memsim.c:128-131 | A node behind the last one. |
| `Lists.LinkedList.Unlink` | project2/part3/memsim.c:210-216 | The node leaves the list, at the head or behind another one; all others stay in order. |
| `Lists.LinkedList.Remove` | project2/part3/memsim.c:292-299 | The node is found again by its address and leaves the list. |
| `Lists.Merge` | project2/part3/memsim.c:177-186 | The same on the list with its head. |
| `Memory.TilesSum` | project2/part3/memsim.c:234 | The sizes of a tiling add up to the memory. |
| `Memory.MergeAt` | project2/part3/memsim.c:182-183 | Making two touching intervals one keeps the tiling and the addresses covered. |
| `Memory.NeighboursCoalesced` | project2/part3/memsim.c:181-185 | A sorted list whose neighbours do not touch has no two intervals that touch. |
| `Memory.FirstIsChosen` | project2/part3/memsim.c:202-206 | The first fitting block in the order of the algorithm is the lowest, the smallest or the largest fitting one, ties to the lowest address. |
| `Memory.GrantBounds` | project2/part3/memsim.c:207-221 | The grant is the request when that leaves nothing or at least MIN_SLICE, and the whole block when it leaves less. |
| `Memory.WithoutTiles` | project2/part3/memsim.c:208-221 | Taking a block or its low part keeps the tiling with the new process. |
| `Memory.WithoutCoalesced` | project2/part3/memsim.c:208-221 | Taking a block or its low part leaves no two free intervals touching. |
| `Memory.WithoutCells` | project2/part3/memsim.c:208-221 | What is left and what is taken cover together what was free. |
| `Allocator.Conserved` | project2/part3/memsim.c:234-290 | In every state that the invariant allows free total plus allocated total is the memory size. |
| `Allocator.CompactedInv` | project2/part3/memsim.c:248-265 | Compaction keeps the invariant and the free total. |
| `Allocator.PackedKeeps` | project2/part3/memsim.c:248-254 | Compaction keeps every pid and size, moves each process to a lower or equal address, and keeps the address order. |
| `Allocator.ChainAt` | project2/part3/memsim.c:250-254 | After compaction each process starts at the sum of the sizes before it. |
| `Allocator.CreatedInv` | project2/part3/memsim.c:202-224 | Creating a process from a fitting block keeps the invariant. |
| `Allocator.EndedInv` | project2/part3/memsim.c:281-299 | Ending a process keeps the invariant. |
| `Allocator.TilesReplace` | project2/part3/memsim.c:177-186 | Disjoint intervals that cover the same addresses can replace a part of a tiling. |
| `Allocator.CreateThenKill` | project2/part3/memsim.c:202-299 | Creating a process and ending it, with no compaction between, restores exactly the same free list and process list: splits, exact fits and whole grants alike. |
| `Allocator.FreeDetermined` | project2/part3/memsim.c:202-299 | Two states with the same memory size and algorithm and the same places of processes have the same free list, whatever was created, ended or compacted before. |
| `Allocator.PossibleWhen` | project2/part3/memsim.c:227-231 | With automatic compaction a request is met exactly when it is at most the memory not in use; without it, exactly when one block fits. |
| `Allocator.WhenMoved` | project2/part3/memsim.c:202-232 | Memory is compacted before a creation if and only if no free block is large enough. |
| `Allocator.ChoiceMeans` | project2/part3/memsim.c:102-126 | The choices 1, 2 and 3 of the menu choose, of the free blocks that are large enough, the first by address, a smallest and a largest, ties by address. |
| `Allocator.CreatedIs` | project2/part3/memsim.c:188-224 | A creation under each choice of the menu: that block, the process with the size it asked for or, when less than MIN_SLICE would be left, all of it, and the rest of the block free. |
| `Allocator.PreparedInv` | project2/part3/memsim.c:227-231 | After the compaction the retry finds a fitting block. |
| `Allocator.Simulator.SumFree` | project2/part3/memsim.c:234 | The loop computes the sum of the free sizes. |
| `Allocator.Simulator.FindProcess` | project2/part3/memsim.c:276-279 | The node of the process with the pid, or null exactly when no process has it. |
| `Allocator.Simulator.SortFree` | project2/part3/memsim.c:133-175 | Each of the three sorts leaves the free list a permutation in its order. |
| `Allocator.Simulator.PackDown` | project2/part3/memsim.c:250-254 | The walk along the list moves the processes down one behind the other from address 0. |
| `Allocator.Simulator.CompactMemory` | project2/part3/memsim.c:248-265 | Same processes packed from 0, and one block of all free memory behind them or none; invariant kept. |
| `Allocator.Simulator.TakeBlock` | project2/part3/memsim.c:206-223 | Exact fit, whole grant below MIN_SLICE, or split; the rest is sorted again. |
| `Allocator.Simulator.TakeFirst` | project2/part3/memsim.c:202-225 | The scan takes the first large enough block, which is the one the algorithm promises, or its low part, and leaves the rest in order; it fails exactly when no block is large enough, and then changes nothing. |
| `Allocator.Simulator.AllocateMem` | project2/part3/memsim.c:202-232 | Terminates after at most one retry; succeeds exactly when the request is possible; takes the block the algorithm promises, from the list as it was or as compacted, of the size asked for unless less than MIN_SLICE would be left; on failure nothing changes. |
| `Allocator.Simulator.NewProcess` | project2/part3/memsim.c:188-199 | The pid is counted up in any case; success exactly for a positive possible size; the whole new state; the other processes stay where they are when some block is large enough. |
| `Allocator.Simulator.FreeMem` | project2/part3/memsim.c:281-290 | Append, sort, merge and sort again, on the links, give the sorted coalesced list of what was free and the process. |
| `Allocator.Simulator.KillProcess` | project2/part3/memsim.c:267-299 | Removes exactly the process with the pid and gives its interval back; an unknown pid changes nothing. |
| `Allocator.Simulator.SetMemSize` | project2/part3/memsim.c:91-100 | Only for a positive size before the first lock; then one free block of that size. |
| `Allocator.Simulator.SetAlgorithm` | project2/part3/memsim.c:102-107 | Choices 1 to 3 reorder the same free blocks; others change nothing. |
| `Simulation.Choose` | project2/part3/memsim.c:320-338 | Each choice of the menu does what its step says and keeps the invariant. |
| `Simulation.Run` | project2/part3/memsim.c:320-338 | Any sequence of choices is a run through states that satisfy the invariant: positive, disjoint intervals that tile the memory, no two free ones touching, the free list in order, pids distinct. |
| `Simulation.RunSurvivors` | project2/part3/memsim.c:188-299 | Over any run process numbers are never given out again and a process keeps its size. |
| `Simulation.RunFromStart` | project2/part3/memsim.c:320-338 | From the start, in every state of every run the sizes add up to the memory. |
| `Simulation.FirstRequest` | project2/part3/memsim.c:188-221 | From the start a request is met exactly from 1 to 1024; the process gets what it asked for, or 1024 when less than 10 would be left, from address 0 on. |
| `Spinlock.StepInv` | project1/part3/spinlock.c:20-41 | Every step of every thread keeps: at most one holder, flag 1 exactly when the lock is held, no stale copy in the critical section, shared equal to the increments stored. |
| `Spinlock.RunInv` | project1/part3/spinlock.c:20-41 | The same over every interleaving. |
| `Spinlock.SpinlockSafe` | project1/part3/spinlock.c:20-70 | For any number of threads, any N and any interleaving: mutual exclusion, the meaning of the flag, and shared_value = threads * N when all have finished. |
| `Spinlock.Progress` | project1/part3/spinlock.c:20-28 | In every reachable state that is not final some thread can move nearer to its end. |
| `Spinlock.CanFinish` | project1/part3/spinlock.c:33-41 | From every reachable state some interleaving finishes all threads. |
| `Spinlock.MovesWhen` | project1/part3/spinlock.c:20-28 | In every reachable state a thread can move exactly when it has rounds left and holds the lock or finds it free; every move brings it one step nearer to its end and leaves the others alone. |
| `Spinlock.FreeIsTaken` | project1/part3/spinlock.c:20-23 | Any thread with rounds left that steps at a free lock holds it afterwards. |
| `Spinlock.HeldIsAwaited` | project1/part3/spinlock.c:20-23 | A thread that steps at a held lock stays outside and changes nothing. |
| `Spinlock.AnyFirst` | project1/part3/spinlock.c:33-41 | Each thread can be the first to enter. |
| `Spinlock.AnyOrder` | project1/part3/spinlock.c:33-41 | Every order of entering, each thread with rounds left, is that of some interleaving, and each entry adds 1. |
| `Race.RunInv` | project1/part2/step1_race.c:11-29 | Over every interleaving g and the stale copies stay within what has been stored so far. |
| `Race.AlwaysBounded` | project1/part2/step1_race.c:11-29 | At every point g is a multiple of 100 from -100 N to 100 N. |
| `Race.Losses` | project1/part2/step1_race.c:11-29 | For every number of lost rounds an interleaving that loses exactly those, for either worker. |
| `Race.FinalValues` | project1/part2/step1_race.c:11-41 | The final values over all interleavings are exactly the multiples of 100 from -100 N to 100 N. |
| `Race.Overwritten` | project1/part2/step1_race.c:11-29 | Whatever the other worker does between the load and the store of a round, the store leaves the value loaded before, changed by 100. |
| `Semaphore.RunInv` | project1/part2/step2_semaphore.c:14-38 | Over every interleaving the semaphore value and the workers inside add up to 1, and g is what the stores so far make it. |
| `Semaphore.SemaphoreSafe` | project1/part2/step2_semaphore.c:14-55 | At most one worker between P and V in every interleaving, and every complete one ends with g = 0. |
| `Semaphore.Progress` | project1/part2/step2_semaphore.c:14-38 | No deadlock: in every reachable state that is not final a worker has a step, and each step brings the end nearer. |
| `Semaphore.CanFinish` | project1/part2/step2_semaphore.c:18-38 | From every reachable state some interleaving completes. |
| `Semaphore.MovesWhen` | project1/part2/step2_semaphore.c:14-38 | In every reachable state a worker can move exactly when it has rounds left and is inside or the other one is outside. |
| `Semaphore.FreeIsTaken` | project1/part2/step2_semaphore.c:14-38 | P of either worker on a semaphore above 0 succeeds at once. |
| `Semaphore.AnyOrder` | project1/part2/step2_semaphore.c:14-38 | Every order of rounds of the two workers is that of some interleaving, and g moves by 100 round by round. |

## Left out

- Volume size: the number of blocks is a parameter between 70 and 4096. The constant of the source, 4611 (project3/include/fs.h:10), is beyond the 4096 bits of its one bitmap block.
- Times: a field `clock` stands for the current time; the superblock's two times are written as zeros.
- The reserved bytes of an inode record and the tails of the two counter blocks are written as zeros; the source copies small structs as whole blocks and leaves what lies behind them.
- Host file I/O: a block read or write in range always succeeds. fs_mount, chmod, ls, the argument dispatcher and all printing are not modelled; CountersRoundTrip covers what fs_mount reads.
- Crash safety of delete and truncate: not claimed, the code does not order those writes for it. The images of dir_remove are sound, but it removes entries, so no tree of names is claimed for them.
- Blocks and inodes that are allocated but not pointed to: failing writes and creations can leave them, so soundness goes from pointers to bits and not back.
- Unique names in a directory: cmd_mkdir does not look for an existing name, so the tree of names allows two entries of one name with different inodes; lookups find the first.
- Runs.Run: the tree of names is claimed while each command is proper, which asks for a free block at mkdir, a proper path with a leaf of at most 55 bytes at delete that is not the current directory, and no write into a directory; truncate, dir_add and dir_remove called on their own keep soundness and counters only. security.c is in the runs by the calls it is made of: open, read, setting a size to 0, seek, write, close, and a change of user. The exact conditions of a creation are stated for a parent that is an allocated inode; the current directory of a run can be one that was deleted.
- Runs.FormatAndRun: starts in the root directory with at least one free descriptor, as the program does; formatting leaves descriptors that are open as they are.
- Files.CmdDelete: the parent part of the path must be shorter than 256 bytes, where the source copies it without a check; when the parent part no longer resolves the directory number is arbitrary, as the source leaves it unset.
- Sessions.SessionSave: user names have at most 15 bytes, as every caller passes them.
- Text.Atoi: gives what strtol with a long of 64 bits and the conversion to an int of 32 bits give, where C leaves numbers that do not fit an int undefined; process numbers do not wrap.
- Accounts.AddThenLogin: the largest uid is below 2^31 - 1, where the addition of the source would overflow.
- Store.ReadAll: the buffer grows without failing, and its text is read as NUL-terminated, as the source assumes.
- Lists.LinkedList.Unlink: nodes that leave a list are not given back to the host, so free() and use after it are not captured; malloc succeeds. Process names, menus and scanf are left out, a choice carries the number that was typed.
- Allocator.Simulator.CompactMemory: called once something is locked; Allocator.CompactsLocked shows that no request compacts earlier.
- Simulation.Choose: an input that is not a number is not a choice.
- The lock programs run with sequentially consistent steps, the counters are unbounded, and starting and joining threads and sched_yield are left out. Fairness is not modelled: CanFinish says that finishing stays possible, not that it happens.
- project1/part1, project1/part2's step 3, project2/part1 and project2/part2: demonstrations of fork, exec, signals and pipes, whose behaviour the kernel decides.
