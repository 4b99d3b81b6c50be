# Host tools of Phoenix-RTOS: a model and its proofs

This project models six of the host tools of Phoenix-RTOS and proves what they are for.

**syspagen** builds the kernel's syspage inside one byte buffer: a bump allocator, two circular doubly linked lists of
records, names and id arrays, with pointers that are addresses on the target. `SyspageSpec` says what a script means
on an abstract syspage, `SyspageRuns` what holds after any script and that the 32-bit and 64-bit builders agree,
`SyspageImage` what it means that a buffer holds a syspage and that following its pointers gives the syspage back,
`SyspageWords` and `SyspageBytes` the same from the script's words and in the records' bytes, `SyspageAppend`,
`SyspageNames` and `SyspageStores` how single stores and in-place splits keep that, and `SyspageGen` is the generator
working on the buffer.

**mkrofs** compiles a directory tree to a flat image. `RofsTree` is the walk and why its list of nodes still is the
tree, `RofsImage` the bytes of an image and mounting one, `RofsMatch` that the mounted tree matches the directory
entries, `RofsMake` the tool.

**phoenixd** speaks two byte-stuffing protocols. `Framing` is the byte machine of the first, whose escapes are those
of section 4.2 of RFC 1662, `Phoenixd` its sender and receivers over a serial line and TCP, `PhoenixdWire` its bytes
on the wire, `Bsp` the older protocol.

**metaelf** seals an ELF file with its CRC-32. `Crc` is the reflected checksum of section 8 of RFC 1952 bit by bit,
`CrcTable` its table form, `CrcDetect` and `CrcBurst` which changes it detects, `CrcCheck` its check value, `Metaelf`
the tool, `MetaelfAccept` which files it takes and what it reads, from their bytes.

**ctf_to_proto** turns kernel events into a trace of slices on tracks. `EmitterNames` are the slice names,
`EmitterSpec` the state machine, `EmitterLog` how to read a log, `EmitterCore`, `EmitterSlices` and `EmitterSafety`
what every step keeps, `EmitterRuns` the guarantees for whole runs, `EmitterViews` that the two views of a processor
agree, `EmitterEvents` what the events alone tell, `EmitterMarks` that they tell the whole log but the ends of slices,
`EmitterEnds` the order in which a thread's end ends its slices, `EmitterKernel` when the kernel's slices pair up on
one processor, `EmitterLocks` when a lock's do, `Emitter` the class that changes its dictionaries.

**psdisk** merges a user's edits into a partition table: `Psdisk`.

`Basics` and `Bytes` hold what several of them share. Where a tool changes things in place, a class or an array method does
so here, and its contract ties the new state to a function of the old one; the theorems are about these functions.

Some promises turned out to hold only under a condition, which is then proved to be exact, with an input on its
failing side:

- One run of metaelf in write mode seals a file only if ident byte 15 was already 0 (`Metaelf.WriteThenCheck`,
  `Metaelf.OneWriteFails`); two runs always do.
- A mark that arrives when the BSP2 receiver holds its full 520 bytes is swallowed by the length test, and the
  frame behind it is lost (`Framing.FrameAfterAnything`, `Framing.FrameLost`).
- BSP accepts a payload of 1024 bytes for sending, and always refuses it on receipt (`Bsp.RecvFrame`).
- The sender's frame buffer holds every BSP frame but that of 1024 bytes all of which are escaped, which is one byte
  longer (`Bsp.FrameFits`, `Bsp.FrameOverrun`).
- The image size of a syspage has 32 bits in both layouts (`SyspageRuns.ImageSizeCovers`, `SyspageRuns.ImageSizeLost`).
- A partition that psdisk removes comes back if the table has its name more often than it is to be removed (`Psdisk.RemovedGone`,
  `Psdisk.RemovedReturns`).
- The converter pairs the kernel's slices by name only, over all processors: the track of one processor pairs up
  unless an end is stray (`EmitterKernel.KernelTrackPaired`, `EmitterRuns.KernelTracksUnpaired`,
  `EmitterKernel.ThreadEndStrays`).
- It pairs a lock's slices by name: they pair up by lock unless an end comes while the lock is held, but not under
  its present name (`EmitterLocks.LockPairs`, `EmitterLocks.RenamedMisses`), as when it is renamed in between and not
  named back.

Two more never hold:

- metaelf's status 4, for an unknown method byte, is overwritten on every path (`Metaelf.UnknownMethodPasses`).
- The big-endian checksum of mkrofs runs a polynomial meant for the other bit order through a right-shifting loop, so
  that every four bytes of an image can be changed unnoticed (`RofsMake.BigEndianBlind`).

## Model

| member | source | states |
|---|---|---|
| SyspageRuns.MapsShareNoAddress | syspagen/syspagen.c:197-234 | No address lies in two maps of a syspage, empty and reversed ranges included. |
| SyspageRuns.AddMapKeepsMapsOk | syspagen/syspagen.c:281-374 | A map that passed the overlap and name test keeps the maps pairwise disjoint, differently named and numbered in order modulo 256, and is only appended. |
| SyspageRuns.ExecKeepsMapsOk | syspagen/syspagen.c:412-449 | Every command, failing or not, keeps that. |
| SyspageRuns.ExecOnlyAppends | syspagen/syspagen.c:143-718 | Every command appends at most one map or one program and never changes an earlier one; a failing command leaves everything but the allocator's size as it was. |
| SyspageRuns.RunKeepsMapsOk | syspagen/syspagen.c:761-816 | The maps of every run, also one that stops at an error, are disjoint, differently named and numbered in order. |
| SyspageRuns.LookupIsUnique | syspagen/syspagen.c:237-278 | Name resolution is a function: a walk finds the one map with that name. |
| SyspageRuns.ResolveStable | syspagen/syspagen.c:454-473 | Ids resolved once stay right when maps are added later. |
| SyspageRuns.ResolvePositions | syspagen/syspagen.c:454-473 | A list resolves exactly when every name is a map's; then the ids stand position by position for the maps of those names, the k-th map having id k mod 256. |
| SyspageRuns.RunMaps | syspagen/syspagen.c:412-449 | A successful run has exactly the maps of its map lines, in order, with their ranges, attributes and numbers. |
| SyspageRuns.RunProgs | syspagen/syspagen.c:628-683 | A successful run has exactly the programs of its app lines, each name resolved in the final list of maps, each device in the most recent alias before it. |
| SyspageRuns.RunMeaning | syspagen/syspagen.c:761-816 | Both at once, from the empty syspage. |
| SyspageWords.ProgramsOfLines | syspagen/syspagen.c:492-683 | From the words alone: a successful script has one program for each app line, in order. Its text is the third word from the end, with an X in front if there are six words; its ids are the numbers of the maps named in the last two words; its start and end are the address, plus the kernel's, and the end of the last alias line before it that keeps its name, reduced to the target's width. |
| SyspageWords.MapsOfLines | syspagen/syspagen.c:412-446 | From the words alone: one map for each map line, in order, with the name, the numbers reduced to the target's width, the letters' bits, and its position as id. |
| SyspageWords.AttrLetters | syspagen/syspagen.c:377-409 | Only the letters r, w, x, s, c and b are taken, and they stand for 1, 2, 4, 8, 16 and 32, each once. |
| SyspageWords.ConsoleLine | syspagen/syspagen.c:688-718 | A console line stores the number behind the dot, in 32 bits, and no other line changes it. |
| SyspageWords.AliasLineSucceeds | syspagen/syspagen.c:143-192 | An alias line succeeds if and only if it has four words, the last two numbers. |
| SyspageWords.MapLineSucceeds | syspagen/syspagen.c:412-446 | A map line succeeds if and only if its numbers and letters read, no map has its name or meets its range, and the record and the name fit, eight-aligned, below the buffer's size. |
| SyspageWords.AppLineSucceeds | syspagen/syspagen.c:492-683 | An app line succeeds if and only if its words are five, or six with -x, some alias has the name before the first ';', every piece of both lists is a map's name, and record, ids and text fit. |
| SyspageWords.ConsoleLineSucceeds | syspagen/syspagen.c:688-718 | A console line succeeds if and only if its second word is a number, a dot and a number. |
| SyspageWords.LineTakes | syspagen/syspagen.c:94-127 | The size starts as the header's 24 or 40 bytes; a map line that succeeds adds 29 or 53 bytes and the name, an app line 36 or 72 and its lists and text, each eight-aligned; other lines add nothing. |
| SyspageWords.OtherLineSucceeds | syspagen/syspagen.c:761-816 | Empty lines and unknown commands succeed and change nothing. |
| SyspageRuns.IdsTellApart | syspagen/syspagen.c:312-322 | The ids of the maps are pairwise different if and only if there are at most 256 maps. |
| SyspageRuns.ImageSizeCovers | syspagen/syspagen.c:178-189 | The image size covers every aliased file if and only if every file ends below 4 GB (the field has 32 bits, also in the 64-bit layout); it is then the greatest of the ends. |
| SyspageRuns.ImageSizeLost | syspagen/syspagen.c:178-189 | A one-line script whose file ends at 8 GB succeeds and leaves an image size of 0. |
| SyspageRuns.AllocMonotone | syspagen/syspagen.c:94-125 | Where the larger 64-bit records fit, the smaller 32-bit ones do. |
| SyspageRuns.ExecSimulates | syspagen/syspagen.c:143-718 | One command that succeeds on the 64-bit builder succeeds on the 32-bit one and leaves the same syspage, in no more room. |
| SyspageRuns.RunSimulates | syspagen/syspagen.c:761-816 | The same for any script from any pair of agreeing states. |
| SyspageRuns.BuildersAgree | syspagen/syspagen.c:94-816 | With all addresses below 4 GB, any script that the 64-bit builder accepts is accepted by the 32-bit one and gives the same maps, ids, programs, console and image size. |
| SyspageImage.CStrReads | syspagen/syspagen.c:294-300 | A NUL-terminated name in the arena reads back as itself. |
| SyspageImage.MapReads | syspagen/syspage32.h:54-66 | A map record decodes to its map. |
| SyspageImage.ProgReads | syspagen/syspage32.h:38-51 | A program record with its argument string and id arrays decodes to its program. |
| SyspageImage.WalkReads | syspagen/syspagen.c:855-876 | A walk along next pointers visits each record of a ring once, in order, and ends back at the head. |
| SyspageImage.EncodedReads | syspagen/syspagen.c:855-900 | Decoding a buffer that satisfies the layout invariant (rings with mutually inverse links, records disjoint, 8-aligned and below the size field) gives exactly the abstract maps and programs. |
| SyspageBytes.SyspageBytes | syspagen/syspage32.h:38-79 | A buffer that satisfies the layout invariant holds, byte offset by byte offset, the packed structures of either layout, each record linked to its neighbours in the ring. |
| SyspageAppend.MapAppended | syspagen/syspagen.c:302-323 | Linking a filled map record behind the last one keeps the layout invariant, with the new map appended and every other record untouched. |
| SyspageAppend.ProgAppended | syspagen/syspagen.c:542-554 | The same for a program record. |
| SyspageAppend.IdFrame | syspagen/syspagen.c:312-322 | Writing the id of the last map changes that id and nothing else that is decoded. |
| SyspageStores.LinkedRing | syspagen/syspagen.c:315-320 | The four stores that splice a record in before the head make a ring that is one longer, with mutually inverse links. |
| SyspageStores.WalkOverlapping | syspagen/syspagen.c:197-234 | The do-while walk over the raw ring ends and reports a conflict exactly when some map overlaps or has the name. |
| SyspageStores.WalkResolve | syspagen/syspagen.c:237-278 | The walk over the raw ring ends and finds exactly the map with the name, and its stored id. |
| SyspageStores.ReadNextId | syspagen/syspagen.c:307-323 | The id read back through the prev pointer gives the number after the last map's. |
| SyspageStores.StrAttr2ui | syspagen/syspagen.c:377-409 | The attribute letters give the set of their bits, whatever their order and repetition; any other letter fails. |
| SyspageNames.MapsParse | syspagen/syspagen.c:476-489 | Replacing separators by NUL in place leaves the pieces of the list one behind the other, each with its NUL, and counts them. |
| SyspageNames.CutIsJoin | syspagen/syspagen.c:476-489 | Splitting in place and joining the pieces with NULs are the same bytes. |
| SyspageNames.PieceAt | syspagen/syspagen.c:468-469 | Stepping over a name and its NUL reaches the next piece of the list. |
| SyspageGen.Generator.constructor | syspagen/syspagen.c:903-933 | A fresh buffer encodes the empty syspage. |
| SyspageGen.Generator.BuffAlloc | syspagen/syspagen.c:94-125 | The bump allocator moves the size field and nothing else, and returns the target address of the room, or 0 when full. |
| SyspageGen.Generator.LinkFirst | syspagen/syspagen.c:307-311 | A first record becomes a ring of one. |
| SyspageGen.Generator.LinkLast | syspagen/syspagen.c:314-320 | A further record is spliced in before the head. |
| SyspageGen.Generator.MapOverlapping | syspagen/syspagen.c:197-234 | Agrees with the abstract conflict test on the maps that the buffer encodes. |
| SyspageGen.Generator.MapNameResolve | syspagen/syspagen.c:237-278 | Agrees with the abstract look-up. |
| SyspageGen.Generator.MapAdd | syspagen/syspagen.c:281-374 | The raw buffer afterwards encodes the abstract syspage with one map appended, or with only its size changed when room ran out. |
| SyspageGen.Generator.MapsAdd2Prog | syspagen/syspagen.c:454-473 | Writes, in place and nowhere else, the ids of the named maps; fails exactly when a name is no map's. |
| SyspageGen.Generator.AppAdd | syspagen/syspagen.c:492-625 | The raw buffer afterwards encodes the abstract syspage with the program appended; every failing path leaves both lists decoded as before. |
| SyspageGen.Generator.CmdAlias | syspagen/syspagen.c:143-192 | The most recent alias comes first; the image size field grows to the end of the file. |
| SyspageGen.Generator.CmdMap | syspagen/syspagen.c:412-449 | The command on the buffer is the abstract command. |
| SyspageGen.Generator.CmdApp | syspagen/syspagen.c:628-683 | The command on the buffer is the abstract command. |
| SyspageGen.Generator.CmdConsole | syspagen/syspagen.c:688-718 | The command on the buffer is the abstract command. |
| SyspageGen.Generator.ParseScript | syspagen/syspagen.c:761-816 | After any script, successful or not, following the raw buffer's pointers gives exactly the maps and programs that the script means. |
| SyspageGen.BuffersAgree | syspagen/syspagen.c:94-816 | Whatever two buffers hold the results of one script in the two layouts, they decode to the same maps and programs, with equal console and image size fields. |
| SyspageGen.BuildBoth | syspagen/syspagen.c:761-816 | Both generators run on one script: if the 64-bit one succeeds the 32-bit one does, and both raw buffers read back the same. |
| RofsTree.ClearWriteKeepsKind | mkrofs/mkrofs.c:360 | Clearing the write bits keeps the kind of a file, and clearing them twice is clearing them once. |
| RofsTree.ClearWriteDigits | mkrofs/mkrofs.c:295 | Exactly the three write bits of a mode are cleared. |
| RofsTree.FlattenDirNumbered | mkrofs/mkrofs.c:257-394 | Nodes are numbered in index order, and every node but the root hangs below an earlier node of the list. |
| RofsTree.FlattenDirTiles | mkrofs/mkrofs.c:361-376 | The data of the files tile the stretch from the first offset to the current one, without gap or overlap. |
| RofsTree.RebuildDir | mkrofs/mkrofs.c:257-394 | Grouping nodes by parent in index order, with the bytes at each file's offset, rebuilds exactly the source tree, with names cut at 207 bytes, write bits cleared and other kinds of file dropped. |
| RofsImage.DecEncField | mkrofs/mkrofs.c:139-166 | A number written in either byte order reads back. |
| RofsImage.NodeReads | mkrofs/mkrofs.c:397-412 | A serialised node reads back as itself in either byte order. |
| RofsImage.IndexAt | mkrofs/mkrofs.c:415-425 | The k-th node's bytes are at 256 times k in the index. |
| RofsImage.AlignUp | mkrofs/mkrofs.c:539 | The index starts on a multiple of 256, less than 256 bytes behind the data. |
| RofsImage.ImageLayout | mkrofs/mkrofs.c:528-556 | Header, data, padding and index lie one behind the other and fill the image. |
| RofsImage.ImageSealed | mkrofs/mkrofs.c:169-211 | The image is as long as its header says, and its checksum field holds the complemented one-pass checksum of everything behind it. |
| RofsImage.IndexReads | mkrofs/mkrofs.c:415-425 | Reading the index of an image gives the nodes back. |
| RofsImage.MountGivesTree | mkrofs/mkrofs.c:443-563 | Mounting the image of a source tree gives the tree back, in either byte order. |
| RofsMatch.MountMatches | mkrofs/mkrofs.c:226-394 | The mounted image matches the entries themselves: exactly the directories and readable files not named . or .., in order, each under its own name if that has fewer than 207 bytes and else under its first 207, with its owner, group and time, its mode without the write bits, and its bytes. |
| RofsMatch.DepthWithin | mkrofs/mkrofs.c:266-388 | Nesting stays within the limit if and only if every way down through directories enters fewer directories than the limit. |
| RofsMatch.HeaderNumbers | mkrofs/mkrofs.c:169-212 | An image begins with ROFS; its size, the place of its index and the number of nodes stand at 8, 16 and 24, the data from 64 on, and the nodes at the end. |
| RofsMatch.NodeFields | mkrofs/mkrofs.c:50-409 | A node's numbers stand at 0, 8, 12, 16, 24, 28, 32 and 40, its name at 48, and every other byte is zero. |
| RofsMatch.EncFour | mkrofs/mkrofs.c:139-151 | A number in four bytes has its lowest byte first in a little-endian image and last in a big-endian one. |
| RofsMatch.EncEight | mkrofs/mkrofs.c:154-166 | A number in eight bytes is its two halves in four bytes each, the lower half first in a little-endian image and last in a big-endian one. |
| RofsMatch.KnownChecksums | mkrofs/mkrofs.c:97-112 | The checksum of 123456789 is the usual 0xcbf43926 in a little-endian image, and 0xfc4f2be9 in a big-endian one. |
| RofsMake.CalcCrc32Mem | mkrofs/mkrofs.c:97-112 | The loop computes the specified checksum with the polynomial of the byte order. |
| RofsMake.SerializeNode | mkrofs/mkrofs.c:397-412 | Filling the 256-byte buffer in place gives the node's bytes, whatever was in the buffer before. |
| RofsMake.FillHeader | mkrofs/mkrofs.c:176-180 | The header in its zeroed buffer: signature, sizes and counts at their places. |
| RofsMake.Maker.CopyFile | mkrofs/mkrofs.c:366-376 | Copying a file through the 4096-byte buffer appends exactly its content and moves the offset by its length. |
| RofsMake.Maker.ProcessDir | mkrofs/mkrofs.c:257-394 | The recursive walk appends exactly the specified nodes and data, restores the depth, and succeeds if and only if the nesting stays within the limit. |
| RofsMake.Maker.CalcCrc32File | mkrofs/mkrofs.c:115-136 | The checksum over 4096-byte chunks is the checksum of the whole stretch. |
| RofsMake.Maker.WriteHeader | mkrofs/mkrofs.c:169-211 | The checksum, though computed over a header part and then the file, is that of everything behind it; nothing behind the header changes. |
| RofsMake.Maker.WriteNodesTree | mkrofs/mkrofs.c:415-425 | Appends the index of all nodes. |
| RofsMake.Maker.Make | mkrofs/mkrofs.c:521-563 | The run succeeds if and only if no directory nests deeper than the limit; the file is then the image, mounts to the source tree, and is sealed. |
| RofsMake.LittleEndianDetects | mkrofs/mkrofs.c:97-112 | In a little-endian image any change inside 32 consecutive bits changes the checksum. |
| RofsMake.BigEndianBlind | mkrofs/mkrofs.c:99-103 | In a big-endian image every four bytes can be changed without changing the checksum: its polynomial has a clear top bit. |
| Framing.FrameFits | phoenixd/msg.c:45-70 | A frame of any message up to 512 bytes fits the 1040-byte buffer, because the byte with the length's high half is never escaped. |
| Framing.CallsAreFeed | phoenixd/msg.c:78-135 | Successive receive calls see exactly what one pass over the stream sees. |
| Framing.FeedSafe | phoenixd/msg.c:90-120 | For any input, storage stays within 520 bytes, and whatever is delivered has the length that its header says. |
| Framing.RoundTrip | phoenixd/msg.c:40-135 | Any sequence of messages, framed with any mark-free noise between them, is received exactly, in order, and leaves the receiver out of frame. |
| Framing.CallOnFrame | phoenixd/msg.c:78-135 | One call consumes exactly the noise and one frame, and returns that frame's message. |
| Framing.FrameAfterAnything | phoenixd/msg.c:92-101 | After any input at all, a frame is delivered if and only if the receiver is not holding its full 520 bytes; when it is, the frame's mark is swallowed and its message lost. |
| Framing.FrameLost | phoenixd/msg.c:92-101 | The receiver does get full: after a mark and 520 bytes of 0xff a whole frame is lost. |
| Framing.CutThenWhole | phoenixd/msg.c:98-101 | A frame cut short anywhere, then a whole frame: the first call fails and the next returns the second message. |
| Framing.ReceivedIsFramed | phoenixd/msg.c:84-127 | Nothing is received that was not framed: a delivered message is the unstuffed text between a mark and the end of the call. |
| Phoenixd.PreparedChecks | phoenixd/msg.c:24-49 | The checksum that goes out is the checksum of the numbered message that goes out, and the payload is unchanged; what that checksum is, the PhoenixdWire rows say. |
| PhoenixdWire.SentZero | phoenixd/msg.c:24-37 | A zero header with number 0 goes out with checksum 0. |
| PhoenixdWire.SentNumber | phoenixd/msg.c:35-49 | One more in the sequence number is one more in the checksum on the wire, modulo 2 to the 16th. |
| PhoenixdWire.SentByte | phoenixd/msg.c:30-34 | A type or payload byte that is d more makes the checksum d more. |
| PhoenixdWire.SentLength | phoenixd/msg.c:30-34 | So does a length byte, the message growing by as many zero bytes as it then says. |
| PhoenixdWire.SentIgnores | phoenixd/msg.c:30-31 | The bytes before offset 4 have no part in the checksum. |
| PhoenixdWire.SentBytes | phoenixd/msg.c:48-49 | On the wire bytes 2 and 3 are the number, low byte first, and the rest behind the checksum is the message. |
| PhoenixdWire.FrameBytes | phoenixd/msg.c:55-70 | A frame is 7e and then each byte of the message, 7e as 7d 5e and 7d as 7d 5d. |
| PhoenixdWire.UnstuffBytes | phoenixd/msg.c:103-114 | Behind 7d the receiver takes 5e for 7e, 5d for 7d, and any other byte for itself. |
| PhoenixdWire.MessageBytes | phoenixd/msg.h:37-53 | A message is whole if its length is 8 plus the number in bytes 6 and 7, low byte first. |
| Phoenixd.MsgCsum | phoenixd/msg.c:24-37 | The loop computes the 16-bit sum of everything behind the checksum word, plus the sequence number. |
| Phoenixd.FillFrame | phoenixd/msg.c:55-70 | The loop fills the buffer with exactly the stuffed frame and never writes past it. |
| Phoenixd.MsgSerialSend | phoenixd/msg.c:40-75 | Sends the frame of the numbered message and returns 8 plus its length, or refuses more than 512 bytes after having numbered the message. |
| Phoenixd.MsgTcpSend | phoenixd/msg_tcp.c:69-107 | The same, refusing 512 bytes already. |
| Phoenixd.ReceiveLoop | phoenixd/msg.c:78-135 | The receive loop stores in place what the byte machine specifies, returns its result, and leaves its state and the rest of the input. |
| Phoenixd.MsgSerialRecv | phoenixd/msg.c:78-135 | The serial receiver is that machine. |
| Phoenixd.MsgTcpRecv | phoenixd/msg_tcp.c:110-170 | The TCP receiver is the same machine, with its own status for a closed connection. |
| Phoenixd.SendThenReceive | phoenixd/msg.c:40-135 | What is sent arrives: the same bytes, checksum correct, and the same return value at both ends. |
| Bsp.FrameFits | phoenixd/bsp.c:34-61 | A frame has 4 + length + escaped bytes, and fits its 2051-byte buffer except for 1024 bytes that are all escaped. |
| Bsp.FrameOverrun | phoenixd/bsp.c:39-54 | 1024 escaped bytes make a frame one byte longer than the sender's buffer. |
| Bsp.BspSend | phoenixd/bsp.c:34-61 | The loop fills the frame with the type, the sum of the unescaped bytes, the stuffed payload and the end character. |
| Bsp.BspRecv | phoenixd/bsp.c:65-107 | The receive loop stores what the specification says, with its error codes or that of a failing read, and consumes exactly the frame. |
| Bsp.RecvFrame | phoenixd/bsp.c:65-107 | A frame is accepted if and only if its payload has at most 1023 bytes and its check sequence is right; a 1024-byte payload, which the sender accepts, is always refused. |
| Bsp.OneByteChanged | phoenixd/bsp.c:48-103 | One changed payload byte is detected if and only if the two bytes weigh differently: always between ordinary bytes. |
| Bsp.FcsBytes | phoenixd/bsp.c:46-51 | The check sequence starts as the type; an ordinary byte adds its own value, less 256 from 0x80 on, modulo 2 to the 16th, and aa and dd add nothing. |
| Bsp.FrameBytes | phoenixd/bsp.c:45-55 | A frame is the type, the check sequence with its low byte first, each byte of the payload, aa and dd behind an aa, and dd. |
| Crc.ChecksumConcat | metaelf/crc32.c:72-91 | A checksum may be computed piece by piece. |
| Crc.StepLinear | metaelf/crc32.c:84-86 | A bit step is linear. |
| Crc.Step8Splits | metaelf/crc32.c:84-86 | Eight steps act on the low byte and only shift the rest. |
| Crc.CalcBitwise | metaelf/crc32.c:80-88 | The bitwise loops compute the checksum. |
| CrcCheck.CheckValue | metaelf/crc32.c:72-90 | The CRC-32 of 123456789 is 0xcbf43926. |
| CrcTable.TableCorrect | metaelf/crc32.c:23-68 | All 256 entries of the table are the eight steps of their index. |
| CrcTable.TableUpdateCorrect | metaelf/crc32.c:76-79 | One look-up does the eight steps of a byte, from any running value. |
| CrcTable.CalcTable | metaelf/crc32.c:75-79 | The table-driven loop computes the same checksum as the bitwise one, for every buffer and start. |
| CrcDetect.StepInjective | metaelf/crc32.c:84-86 | A bit step with this polynomial loses no information. |
| CrcDetect.WindowAtOnce | metaelf/crc32.c:82-87 | Up to four bytes may be mixed in at once before any step. |
| CrcBurst.BurstDetected | metaelf/crc32.c:72-91 | Strings of equal length that differ only inside 32 consecutive bits, which may straddle five bytes, have different checksums. |
| CrcBurst.WindowIsBurst | metaelf/crc32.c:72-91 | So do strings that differ only inside four consecutive bytes. |
| CrcBurst.ChecksumMixes | metaelf/crc32.c:82-87 | The checksum takes a string bit by bit, each byte from its lowest bit on. |
| CrcBurst.StayApart | metaelf/crc32.c:84-86 | Behind the first bit in which two strings differ their running values stay different, for 32 bits whatever follows. |
| CrcDetect.BigEndianMisses | mkrofs/mkrofs.c:97-112 | With the polynomial 0x04c11db7 every four bytes of every string can be changed without a trace. |
| Metaelf.AcceptedSize | metaelf/metaelf.c:91-217 | A file that passes the size test is longer than its identification. |
| MetaelfAccept.AcceptedWhen | metaelf/metaelf.c:91-217 | From the bytes alone: a file is taken as an ELF file if and only if it begins with the magic number and its length is the offset of its section headers plus their size times their number, with each class's places, both byte orders and the wrap-around of each width written out. |
| MetaelfAccept.Small32Accepted | metaelf/metaelf.c:91-94 | A 92-byte little-endian 32-bit file with one section header is accepted. |
| MetaelfAccept.Small64Accepted | metaelf/metaelf.c:97-100 | A 128-byte big-endian 64-bit file with one section header is accepted. |
| MetaelfAccept.Verdict | metaelf/metaelf.c:219-242 | The check's status, from the number in bytes 9 to 12 and the CRC-32 of the file with these bytes zero: 0 if they are equal, else 3 for an empty field and 2 for any other, and 1 for a file that is not accepted. |
| MetaelfAccept.WritesField | metaelf/metaelf.c:244-255 | Write mode stores that CRC-32 in these bytes, in the file's byte order, clears byte 15 and leaves every other byte. |
| Metaelf.WrittenAccepted | metaelf/metaelf.c:252-256 | Write mode keeps a file acceptable, and its byte order. |
| Metaelf.StoredIsWritten | metaelf/metaelf.c:219-254 | The checksum written is the checksum read back, in either byte order. |
| Metaelf.WriteThenCheck | metaelf/metaelf.c:219-256 | One write makes the check succeed if and only if ident byte 15 was 0 already (or lies past the summed bytes): the checksum is taken before that byte is cleared. |
| Metaelf.OneWriteFails | metaelf/metaelf.c:209-256 | A 52-byte file with byte 15 set is accepted, and one write does not make its check succeed. |
| Metaelf.WriteTwiceThenCheck | metaelf/metaelf.c:219-256 | Two writes always make the check succeed, and a third changes nothing. |
| Metaelf.WriteAgain | metaelf/metaelf.c:219-256 | With byte 15 clear, a second write changes nothing. |
| Metaelf.UnknownMethodPasses | metaelf/metaelf.c:226-242 | With the right checksum in place the check reports success whatever the method byte is: the status for an unknown one is always overwritten. |
| Metaelf.TamperDetected | metaelf/metaelf.c:226-242 | A file that passes no longer passes once sealed bits inside 32 consecutive ones are altered, checksum bytes and byte-order mark left alone. |
| Metaelf.File.CalcCrc32 | metaelf/metaelf.c:120-129 | The three ranges give the checksum of the file with its checksum bytes read as zero. |
| Metaelf.File.Run | metaelf/metaelf.c:193-263 | One run has the specified exit status, and leaves the specified file. |
| EmitterNames.LockedPlace | trace/ctf_to_proto/src/ctf_to_proto.py:582-591 | A lock slice's name tells its lock, however the lock is named, so its END finds the track of its BEGIN. |
| EmitterNames.RunNames | trace/ctf_to_proto/src/ctf_to_proto.py:445 | The running slices of different processors have different names. |
| EmitterNames.RunNotThread | trace/ctf_to_proto/src/ctf_to_proto.py:397-445 | No thread's slice on a processor track has the name of a running slice. |
| EmitterLog.LevelMeaning | trace/ctf_to_proto/src/ctf_to_proto.py:307-326 | A level that never turned negative is begins minus ends, with no more ends than begins in any prefix. |
| EmitterLog.ScanMeaning | trace/ctf_to_proto/src/ctf_to_proto.py:401-423 | What a scan accepts are slices that begin and end in turns, with matching names and tracks. |
| EmitterSafety.EmitInv | trace/ctf_to_proto/src/ctf_to_proto.py:513-661 | Every event, failing or not, keeps what holds of the log, the tracks and the stacks. |
| EmitterSafety.IntroduceInv | trace/ctf_to_proto/src/ctf_to_proto.py:230-305 | Introducing a thread describes its process and tracks before anything uses them. |
| EmitterSlices.EmitSliceCore | trace/ctf_to_proto/src/ctf_to_proto.py:627-658 | One slice, begun, ended or skipped, keeps the balance of every track and name. |
| EmitterSlices.EndAllCore | trace/ctf_to_proto/src/ctf_to_proto.py:319-326 | Ending all of a thread's slices keeps it. |
| EmitterSlices.SwitchRunningCore | trace/ctf_to_proto/src/ctf_to_proto.py:427-454 | Switching the running thread keeps one open running slice for each processor. |
| EmitterRuns.TracksDescribed | trace/ctf_to_proto/src/ctf_to_proto.py:212-390 | Every track and parent mentioned was described by an earlier packet; different tracks have different uuids; a uuid is described once, or again as the same process. |
| EmitterRuns.ThreadSlices | trace/ctf_to_proto/src/ctf_to_proto.py:567-658 | On each track of a thread, begins minus ends of each name is the number on the thread's stack, all of it on the one track of that name, and no prefix of the output has more ends than begins. |
| EmitterRuns.KernelSlices | trace/ctf_to_proto/src/ctf_to_proto.py:567-658 | The same for the kernel, over all its per-processor tracks together. |
| EmitterRuns.NothingLeftOpen | trace/ctf_to_proto/src/ctf_to_proto.py:614-615 | Right after thread_end nothing the thread began is open, on any of its tracks. |
| EmitterEvents.EventsTell | trace/ctf_to_proto/src/ctf_to_proto.py:513-661 | The events alone tell when an exception stops the run, which threads, processes and lock names are known until then, and how many slices of each name each thread holds. |
| EmitterMarks.LogTold | trace/ctf_to_proto/src/ctf_to_proto.py:212-661 | For every run, the log without the ends of slices is, packet by packet and in order, what the events alone tell: descriptors, begins, instants and counters, with their names and values, each on the track of what it is for. |
| EmitterMarks.MarksTold | trace/ctf_to_proto/src/ctf_to_proto.py:532-672 | The instants are the marks of the handled events, one for each plain event and each thread_end, on the thread's events track or the processor's kernel track; the counters are one for each thread met and one for each thread_priority, on the thread's prio track. |
| EmitterEnds.ThreadEndEnds | trace/ctf_to_proto/src/ctf_to_proto.py:307-326 | The end of a thread first ends what it holds, name by name in the order in which the names were first begun since it last ended, as often as each is held, on the thread's track or, for the kernel, on the processors where they began, and then writes no further end. |
| EmitterMarks.KnownIs | trace/ctf_to_proto/src/ctf_to_proto.py:456-568 | A thread is what its last thread_create or process_exec says, or else the stand-in UNKNOWN with priority 999; a lock has its last name, or else 0x and its number; a thread is introduced once, at its first event that is not its creation. |
| EmitterMarks.DigitsSpell | trace/ctf_to_proto/src/ctf_to_proto.py:397-461 | A number in a name is spelled in the digits of its base, with no zero in front, and reads back as itself. |
| EmitterMarks.FortyTwo | trace/ctf_to_proto/src/ctf_to_proto.py:397-591 | The names of a lock's slice, a running slice and a thread, spelled out. |
| EmitterRuns.CpuTurns | trace/ctf_to_proto/src/ctf_to_proto.py:392-425 | On a processor's track BEGIN and END alternate with matching names, in every prefix of the output. |
| EmitterRuns.RunningTurns | trace/ctf_to_proto/src/ctf_to_proto.py:427-454 | Each processor has at most one open running slice, closed on the track of the thread that opened it, in every prefix. |
| EmitterRuns.KernelTracksUnpaired | trace/ctf_to_proto/src/ctf_to_proto.py:307-622 | A witness of a stray end: an interrupt begun on one processor and ended on another ends where it never began. |
| EmitterKernel.KernelTrackPaired | trace/ctf_to_proto/src/ctf_to_proto.py:307-326 | On the kernel's track of one processor, no prefix of the output has more ends of a name than begins if and only if the events hold no stray end: one that takes the slice of another processor while none is open on its own, or the end of the kernel's thread doing so. |
| EmitterKernel.RunTold | trace/ctf_to_proto/src/ctf_to_proto.py:513-661 | The ledger computed from the events alone tells the kernel's stack of a name and what is open on a processor. |
| EmitterKernel.OneProcessor | trace/ctf_to_proto/src/ctf_to_proto.py:311-317 | Kernel events of a single processor hold no stray end. |
| EmitterKernel.ThreadEndStrays | trace/ctf_to_proto/src/ctf_to_proto.py:319-326 | A witness of a stray end that the end of the kernel's thread makes, though every end before it was in order. |
| EmitterLocks.LockEnds | trace/ctf_to_proto/src/ctf_to_proto.py:456-591 | The end of a lock takes the last slice held under the lock's present name, and nothing under an earlier one. |
| EmitterLocks.OpenIsHeld | trace/ctf_to_proto/src/ctf_to_proto.py:582-658 | Begins minus ends on a lock's track, all names together, are the lock's slices held, computed from the events. |
| EmitterLocks.LockPairs | trace/ctf_to_proto/src/ctf_to_proto.py:456-658 | For every run, thread and lock: at every prefix of the events the lock's track has open what pairing by lock would leave open, if and only if no end is missed, that is, comes while slices of the lock are held but none under its present name. |
| EmitterLocks.NotRenamed | trace/ctf_to_proto/src/ctf_to_proto.py:456-608 | If no different name is given to a lock while a thread holds it, no end is missed. |
| EmitterLocks.NamedBack | trace/ctf_to_proto/src/ctf_to_proto.py:456-608 | A lock renamed while it is held and named as before again before its end pairs up. |
| EmitterLocks.RenamedMisses | trace/ctf_to_proto/src/ctf_to_proto.py:456-608 | A lock renamed while it is held, to a name under which it is not held: the next end is missed. |
| EmitterLocks.RenamedLock | trace/ctf_to_proto/src/ctf_to_proto.py:456-608 | A witness of a missed end: a begin, a name given to the lock and its end pair up only if the name is the one the lock had; otherwise the slice stays open. |
| EmitterViews.ThreadNameTells | trace/ctf_to_proto/src/ctf_to_proto.py:397 | A name on a processor's track tells the thread, so an unchanged name is an unchanged thread. |
| EmitterViews.SwitchAgrees | trace/ctf_to_proto/src/ctf_to_proto.py:392-454 | After a switch the processor's track and its running slice show the same thread. |
| EmitterViews.RunAgrees | trace/ctf_to_proto/src/ctf_to_proto.py:392-454 | In every reachable state the slice open on a processor's track names a thread, and the processor's running slice is on that thread's own track. |
| EmitterViews.ScheduledIsShown | trace/ctf_to_proto/src/ctf_to_proto.py:600-661 | Right after a thread is scheduled on a processor, both views show that thread under its present name. |
| Emitter.Emitter.EmitEvent | trace/ctf_to_proto/src/ctf_to_proto.py:513-661 | The method changes the dictionaries, stacks and log exactly as specified. |
| Emitter.Emitter.EndOngoingEvents | trace/ctf_to_proto/src/ctf_to_proto.py:319-326 | The nested loops print the ends of all begun slices, stack by stack. |
| Emitter.Emitter.PrintTracePackets | trace/ctf_to_proto/src/ctf_to_proto.py:190-210 | Flushing a full batch loses and reorders nothing. |
| Emitter.Emitter.Convert | trace/ctf_to_proto/src/ctf_to_proto.py:674-691 | The file is a prefix of the log and safe by itself; without an exception it is the whole log. |
| Psdisk.UpdateNamed | psdisk/psdisk.c:311-357 | A table entry acts only on the nodes of its own name. |
| Psdisk.MeetsFirst | psdisk/psdisk.c:311-357 | A table entry meets the first node of its name, takes it away if it is a request to remove, and joins in front if there is none. |
| Psdisk.SucceedsWhen | psdisk/psdisk.c:305-368 | For all lists and tables: an update succeeds if and only if, for every name, its requests to remove precede its partitions to save in the list and are not more than the table's partitions of that name. |
| Psdisk.UpdateExact | psdisk/psdisk.c:305-368 | With no name repeated, the exact list after the update, in order. |
| Psdisk.UniqueUpdate | psdisk/psdisk.c:305-368 | With no name repeated, an update succeeds if and only if every -r name is in the table, and then leaves exactly the saved partitions and the table's unmentioned ones. |
| Psdisk.RemovedGone | psdisk/psdisk.c:311-357 | Where nothing is saved under a name, it is gone after the update if and only if the table has it as often as there are requests to remove it: one entry more joins as new, one fewer leaves a request over. |
| Psdisk.RemovedReturns | psdisk/psdisk.c:311-357 | A table with a name twice and one request to remove it: the update succeeds, and the second partition is there. |
| Psdisk.Disk.ParseToRm | psdisk/psdisk.c:398-422 | Adds one request in front, and counts it, unless the name has a bad length. |
| Psdisk.Disk.ParseToSave | psdisk/psdisk.c:425-491 | Adds one partition in front, and counts it, unless its name or type is bad. |
| Psdisk.Disk.UpdatePartsList | psdisk/psdisk.c:305-368 | The loops leave the specified list, keep the count equal to its length, and fail exactly when a request to remove is left. |
| Psdisk.Disk.CreatePartsTable | psdisk/psdisk.c:252-286 | Fills exactly `count` entries with the partitions of the list, in order. |
| Psdisk.Disk.VerifyPartsTable | psdisk/psdisk.c:222-249 | Succeeds exactly when the image starts with the partitions of the list. |
| Psdisk.Disk.UpdateImg | psdisk/psdisk.c:371-393 | After a successful update the image holds exactly the updated list. |

## Left out

- Files, serial lines, sockets, mmap, getopt, logging, allocation failures and failing writes: byte channels and files are sequences, file reads are total, and a failing send is not modelled.
- syspagen: splitting a line into words and reading lines (`sysgen_parseArgLine`, `getline`); a script is a sequence of lines of words.
- syspagen: `strtoul` is a parameter of the model; nothing is assumed of it but that its value is an unsigned long and that it stops inside its argument.
- syspagen: the sum in the allocator is unbounded here, where the original's wraps at 64 bits for requests near 2^64; words are NUL-free strings of bytes, and the buffer's own base address is offset 0.
- SyspageRuns.BuildersAgree: asks that alias ends plus the kernel's address and map bounds stay below 2^32, which is when both layouts can hold them.
- SyspageGen.Generator.constructor: asks that pkernel + offs + maxsz fits the target's addresses and that maxsz exceeds the header, as the original's users must.
- syspagen: adding the syspage to the image file, and the dump.
- mkrofs: symbolic links, `opendir` and allocation failures, paths of 4096 bytes and more, growing the node array; the three times of stat enter as the most recent one, the signed owner and group as their 32-bit patterns.
- RofsMake.Maker.Make: asks that files are as long as stat said and that the image stays below 2^32 bytes; beyond that the original's offsets wrap.
- RofsMake.CalcCrc32Mem: reads its buffer as a sequence; the original moves a pointer over it.
- phoenixd: UDP, the file protocol, the dispatcher, and the acknowledgements of `bsp_req` and its callers, whose peer is not in the repository.
- Bsp.BspSend: asks that the payload is not 1024 bytes that are all escaped, for which the original writes one byte past its frame buffer.
- Phoenixd.MsgSerialSend: asks that the length field lies inside the message array, where the original sums that many bytes before checking it.
- Phoenixd.MsgTcpSend: asks the same.
- metaelf: opening, mapping and the third mode that neither checks nor writes and cannot be selected; a little-endian host.
- Emitter.Emitter.EmitEvent: leaves out timestamps (the shifts by a nanosecond do not order events that share one), flow and correlation ids, debug annotations, protobuf encoding and progress output.
- ctf_to_proto: the dictionaries from threads, processes, locks and processors to track numbers are one map here, keyed by what a track is for; a missing entry would show as number 0, which `EmitterRuns.TracksDescribed` excludes.
- ctf_to_proto: events carry the fields of their kind; the exceptions that remain (system call number, unknown thread or process on exec, lock name, kernel events on thread tracks) stop the run.
- EmitterRuns.ThreadSlices: leaves the kernel to KernelSlices and `EmitterKernel.KernelTrackPaired`, as its tracks share one stack.
- Psdisk.Disk.ParseToSave: takes the offset, size and type as read; reading them from the argument, with its errors, is left out, as the field widths of `libptable` are not part of this model.
- psdisk: serialising and sizes of `libptable`, memory and block geometry; a table is a sequence of records, and the count is a natural number where the original has 32 bits.
- common/script.c, mcxisp, psu, usb_imx, usb_vybrid: their loops are simpler than the ones modelled, or the device's side is not in the repository.
