# Wanix: a verified model of its protocols and file systems

Wanix is a Plan 9 style system built from in-memory file systems, layered caches and byte-stream
protocols.  This project models the parts of it that carry the most state and proves what those parts
are for.  Each module follows one part of the program:

- `Numbers`: numbers written in bytes, for the formats below.
- `Utf16`, `Cbor`, `CborWriter`, `CborReader`, `CborRoundTrip`, `CborFormat`, `CborCodec`: the CBOR codec of the
  worker bundle (section 3 of RFC 8949).  `Enc` and `Dec` say what the format is; `CborFormat` states it once
  more, by the sections of the standard, and shows that nothing shorter is read as the same.  The writer works in a buffer
  that grows by copying, guesses the header of a string from its length in UTF-16 units and shifts the
  text when the guess was short, and patches the size of an object afterwards; the reader has three fast
  paths for text.  The two undo each other on exactly the values named by `Survives`.
- `MuxCodec`, `MuxChannel`, `MuxLink`, `MuxWrites`, `MuxEnds`, `MuxPair`, `MuxSession`: the channel multiplexer.  Messages
  survive any chunking of the transport; a channel's two ends and the two pipes between them are a state
  machine with credit-based flow control, which two channel objects and two queues follow step by step; two
  sessions with any number of channels are, channel by channel, that machine.
- `Paths`: path names and the string functions on them, shared by the file systems.
- `R2Listing`, `R2Cas`, `R2Tree`: the object-store file system.  Directory listings are text objects kept
  by compare-and-swap; rename and remove recurse over them.
- `CowRenames`, `Cowfs`: the copy-on-write file system, described by what a reader sees at each path.
- `Memfs`, `FileHandle`, `MemTree`: the flat-map file system, its open files, and the helpers that
  recurse over it.
- `NineP`: the framers that cut a 9P stream into messages and match responses to requests by tag.
- `Syncfs`: the synchronization of a local tree with a remote one, from the first scan on, with the record of
  changes kept between synchronizations.
- `MetaKeys`, `MetaAnswers`, `Metacache`: the metadata cache.  What it must drop for each kind of change is
  worked out exactly, on trees with symbolic links too.
- `VfsBindings`: the bindings of a namespace, with the maps and the arrays behind slices as objects, so that
  what readers share with writers is part of what is proved.
- `Signal`: the fan-out of frames to subscribers and the readers that take them in pieces.
- `WasmRefs`: the reference table between Go and JavaScript.

Code that works step by step is modelled by classes and methods with the same branches, each proved
against a function or a predicate that says what it does to the whole state; the laws are then lemmas
about those.  A run is any finite sequence of steps, each possible when it is taken.

Some promises turned out not to hold for every input.  Each is stated with its exact condition:

- A value comes back from the CBOR codec unless it holds a lone surrogate on a native text path, text of
  more than 64 bytes that starts with a byte order mark and is decoded natively, an object of 65536 keys
  or more, or a key `__proto__` (`CborRoundTrip.RoundTripExactly`).
- A directory listing is read back as written exactly when no name or mode is empty or has white space in
  it (`R2Listing.ListingComesBack`).
- The rename map of the copy-on-write file system stays flat exactly when a file of the base is renamed
  neither onto a current alias nor onto its own old name; a file renamed to its own name cannot be reached
  any more (`CowRenames.FlatExactly`, `CowRenames.RenamedToItself`).
- A copied tree equals its source in names, bytes, link targets and modes exactly when no name starts with
  `#`, which listings hide, links have mode 0777 and every directory can be read or entered by its owner;
  other directories get both bits (`MemTree.CopyEquals`).  The code's own comment says that the modes match in
  the end.
- A 9P request gets its answer unless its callback is taken away; in a run none is exactly if no request is
  made under a tag that is still out, and no call of the response writer that finds a bad size has found
  messages for waiting callbacks before it (`NineP.RunCompletes`, `NineP.ReusedTag`).
- A write of a channel is stranded where credit for all that was sent is handled before the hand-over of its
  last packet ends: in a quiet state writes wait exactly if one has parked since the last credit.  From a
  quiet state a write always finishes exactly if it fits in one packet; where hand-overs end before their
  answers come, as with a message port, every write does (`MuxWrites.StrandedExactly`,
  `MuxWrites.WriteFinishesExactly`, `MuxWrites.PromptRunsFinish`).
- A packet whose fixed part has come only in part is read with zeros for the rest; it is read right exactly if
  the rest is zeros (`MuxCodec.ReadTooSoon`).
- A directory of the copy-on-write file system that looks empty cannot be removed exactly if the overlay has
  hidden entries of it (`Cowfs.LooksEmpty`); a file renamed to the name it resolves to is kept exactly if that
  was done by an alias and the file is as in the base (`Cowfs.Cow.RenameToSource`).
- A rename in the object store leaves every object listed in its directory, and only those, exactly if everything
  below the destination is overwritten; the code does not look what is there (`R2Tree.RenameExactly`,
  `R2Tree.EntryLeftOver`).
- A rename of the copy-on-write file system onto an alias loses the content, and only such a rename or one to
  the name a file resolves to does (`Cowfs.Cow.Rename`).  A directory is renamed with what is below it exactly
  if that is in the overlay alone, but for what was removed from the base (`Cowfs.Cow.RenameDirectory`,
  `Cowfs.LeftBehind`).  A node made under an alias is not seen, and one made in a removed directory is seen
  without it; otherwise what is seen stays a tree (`Cowfs.PutExactly`, `Cowfs.InRemovedDirectory`).
- The flat map keeps every path in a directory exactly if nothing is made below a file or in place of a
  directory with entries, nothing with hidden entries is removed and nothing is moved below itself
  (`Memfs.PutExactly`, `Memfs.DropExactly`, `Memfs.MoveExactly`).  `RemoveAll` fails exactly where something
  hidden lies below an entry (`MemTree.RemoveAll`, `MemTree.HiddenInTheWay`).
- The emulator's byte-wise framer and the parser cut a stream alike exactly if it has no message of 4, 5 or 6
  bytes (`NineP.BytesAgree`).
- A file that was changed and then removed between two synchronizations comes back with the next one if the
  remote has it, because the removal takes the record of the change back; exactly such paths come back
  (`Syncfs.DropLoses`, `Syncfs.SyncFS.SyncLater`, `Syncfs.RemovedComesBack`).
- The metadata cache stays coherent after `Mkdir` exactly if nothing was cached of the name, after `Rename`
  exactly if nothing inside the directory was cached at either place, after `RemoveAll` of the root exactly
  if nothing was cached below it, and after `Stat` of an open file exactly if the name still has that file's
  info (`Metacache.FS.Mkdir`, `Metacache.FS.Rename`, `Metacache.FS.RemoveAll`, `Metacache.Handle.Stat`).
  With symbolic links, exactly if besides that no answer is cached for a link to a path whose answer the
  operation changes: `Stat` where the info changes, a listing where the path appears, goes or stops being a
  directory, and a listing of a link to the directory its entry is in (`MetaAnswers.LinksExactly`,
  `MetaAnswers.MadeAllExactly`, `MetaAnswers.RemovedAllExactly`, `MetaAnswers.RenamedExactly`,
  `Metacache.StaleThroughLink`).
- A synchronization does not carry the mode of a directory that is on both sides: after a first one the modes
  agree exactly if they did before or the local side was ahead (`Syncfs.ModesAfter`).
- A broadcast sends to a closed channel exactly if a subscriber was removed, or all were, while something was
  still to be sent to it (`Signal.DoomedExactly`, `Signal.LeavesTooSoon`).
- A missing root is never to be remembered, says a comment of the metadata cache; the key that `Lstat` uses is
  not the one compared with, so there it is (`Metacache.FS.Fetch`).

## Model

| member | source | states |
|---|---|---|
| Utf16.UnitsUndoUtf8 | gojs/worker/lib.js:543-588 | the reader's loop gives back every UTF-16 string from the bytes the writer's loop stores, lone surrogates included |
| Utf16.ScrubFixes | gojs/worker/lib.js:1112-1121 | replacing lone surrogates, as the native encoder does, leaves a string alone exactly if it is well formed |
| Utf16.AsciiUnits | gojs/worker/lib.js:590-602 | bytes below 128 decode to themselves, which is what lets the fast paths skip the decoder |
| CborRoundTrip.RoundTripExactly | gojs/worker/lib.js:260-488 | a decoded encoding is the value, with whatever followed it left over, if and only if the value survives |
| CborRoundTrip.TextBack | gojs/worker/lib.js:361-370 | the body of a text item decodes to the text or, on the native paths, to the text scrubbed and without its mark; it is the text exactly under TextSurvives |
| CborRoundTrip.HeadBack | gojs/worker/lib.js:1439-1469 | the header written for every major type and argument is read back, and nothing more is consumed |
| CborFormat.HeadIsShortest | gojs/worker/lib.js:1439-1469 | any bytes that are read as the same header, whatever width their argument has, are at least as long as the header written, and those of its length are it |
| CborFormat.EncIsShortest | gojs/worker/lib.js:1157-1266 | any bytes read as the same number, byte string, constant or array of these are at least as long as what is written |
| CborFormat.DecHeadIs | gojs/worker/lib.js:260-354 | the reader takes the major type from the top three bits and an argument of 0, 1, 2, 4 or 8 bytes in network order, by the low five, as section 3 of RFC 8949 says |
| CborFormat.InitialByte | gojs/worker/lib.js:1157-1266 | the first byte written has the major type of the value in its top three bits; the constants are 244 to 247; an object is always a map with a count of two bytes |
| CborFormat.TextIs | gojs/worker/lib.js:1376-1438 | a text item ends in its bytes, behind a header that is as short as any that is read as it |
| CborFormat.Utf8Is | gojs/worker/lib.js:1387-1412 | each turn of the loop of the writer writes one code point as the table of section 3 of RFC 3629 has it, a surrogate alone as any other |
| CborFormat.StrayBytes | gojs/worker/lib.js:543-588 | bytes that start no sequence are units of their own |
| CborFormat.AppendixA | gojs/worker/lib.js:1439-1469 | numbers are written as in Appendix A of RFC 8949 |
| CborFormat.AppendixANegative | gojs/worker/lib.js:1439-1469 | so are negative numbers |
| CborFormat.AppendixAText | gojs/worker/lib.js:1376-1438 | so is text of one, two and three bytes a character |
| CborFormat.AppendixAMore | gojs/worker/lib.js:1157-1266 | so are a number beyond 32 bits, a byte string and the empty array |
| CborFormat.BitNotWraps | gojs/worker/lib.js:355-358 | the complement of an unsigned 32-bit argument is a signed 32-bit number, the wrapped one where it would be too small |
| CborFormat.ProtoIs | gojs/worker/lib.js:539-541 | the key that is not kept is __proto__, and becomes __proto_ |
| CborFormat.AppendixAItems | gojs/worker/lib.js:1487-1520 | so are arrays of numbers |
| CborFormat.AppendixAPair | gojs/worker/lib.js:1376-1438 | so is text with a surrogate pair |
| CborRoundTrip.ItemsBack | gojs/worker/lib.js:1487-1520 | the items of an array come back in order if and only if each survives |
| CborRoundTrip.EntriesBack | gojs/worker/lib.js:1654-1675 | the entries of an object come back in order, keys with their values, if and only if each survives |
| CborRoundTrip.LargeObjLost | gojs/worker/lib.js:1654-1675 | an object of 65536 keys or more never comes back: its size is kept modulo 65536 |
| CborRoundTrip.EntriesGrow | gojs/worker/lib.js:260-488 | decoding entries never loses a key that was already there |
| CborWriter.Writer.MakeRoom | gojs/worker/lib.js:1774-1792 | the new buffer holds everything written since the start, has room for what is asked for and never passes the maximum |
| CborWriter.Writer.EncodeText | gojs/worker/lib.js:1360-1438 | whatever header was guessed, the buffer ends with the text item of the string; what was written before is untouched |
| CborWriter.Writer.GuessIsClose | gojs/worker/lib.js:1376-1438 | the header guessed from the length in UTF-16 units is never too long and at most one step too short |
| CborWriter.Writer.CopyWithin | gojs/worker/lib.js:1415-1438 | shifting inside one array moves the bytes although source and target overlap |
| CborWriter.Writer.WriteObject | gojs/worker/lib.js:1654-1675 | the object is written with its size patched in afterwards, at a place that moved if the buffer was replaced |
| CborWriter.Writer.WriteBuffer | gojs/worker/lib.js:2183-2204 | a byte array is written behind its length, growing the buffer when it must |
| CborWriter.Writer.WriteArray | gojs/worker/lib.js:1487-1520 | an array is written behind its length, item by item |
| CborWriter.Writer.Encode | gojs/worker/lib.js:1157-1266 | within the buffer limit the bytes are those of Enc; a value whose bound is within the limit is always written; results handed out before are not overwritten |
| CborReader.Reader.ShortStringInJS | gojs/worker/lib.js:603-742 | either the text the general reader would return, or nothing read and the position restored |
| CborReader.Reader.LongStringInJS | gojs/worker/lib.js:590-602 | either the text the general reader would return, or nothing read and the position restored |
| CborReader.Reader.ReadStringJS | gojs/worker/lib.js:543-588 | the general reader returns the units of the bytes, whatever fast path it tried first, and advances by the length |
| CborReader.Reader.Read | gojs/worker/lib.js:260-488 | reading at a position returns what Dec says of the bytes from there and stops where Dec stops, errors included |
| CborReader.Reader.Decode | gojs/worker/lib.js:227-259 | a value is returned exactly if the bytes decode and nothing is left over |
| CborReader.UnitsPastEnd | gojs/worker/lib.js:543-588 | a text whose last sequence is cut off by the end of the input cannot be read without running past it |
| CborCodec.Transfer | gojs/worker/lib.js:1157-1266 | what the writer object writes, the reader object reads as the same value if and only if the value survives |
| MuxCodec.MarshalRoundTrip | gojs/worker/lib.js:3064-3125 | a message comes back from its bytes exactly when its fields fit in 32 bits and its data has the announced length |
| MuxCodec.WireFormat | gojs/worker/lib.js:2999-3125 | the bytes of a message: its type byte, its fields in order in four bytes each, most significant first, and for data the bytes |
| MuxCodec.UnmarshalRoundTrip | gojs/worker/lib.js:3299-3384 | a packet of a known type and the length it announces is the bytes of the message read from it |
| MuxCodec.Conn.Read | gojs/worker/lib.js:3907-3938 | a read takes bytes across chunk boundaries, in order, and puts back what it did not need |
| MuxCodec.ReadPacket | gojs/worker/lib.js:3299-3332 | one packet is cut off the front of the stream whatever the chunks, and unknown types fail; where only a front of the fixed part has come, zeros stand for the rest |
| MuxCodec.ReadTooSoon | gojs/worker/lib.js:3299-3332 | a message of which only a front has come is read right if and only if what is missing is zeros |
| MuxCodec.DecodeAll | gojs/worker/lib.js:3333-3384 | the concatenated encodings of any messages, in any chunks, are decoded to exactly those messages |
| MuxCodec.DecodeArriving | gojs/worker/lib.js:3333-3384 | messages that come one chunk each while others are read: in any order of the two what was read is the front of what was sent |
| MuxCodec.FrontMessage | gojs/worker/lib.js:3299-3332 | the length a packet announces is the length of its encoding, whatever follows it |
| MuxChannel.ReadIs | gojs/worker/lib.js:3216-3241 | a read gives the front of what was buffered, as much of it as was asked for and no more, and leaves the rest; it waits exactly on an empty buffer that more may come to |
| MuxChannel.WriteIs | gojs/worker/lib.js:3662-3708 | what a write sends at once is its front, as much as packet and window allow; nothing is sent exactly without bytes, packet size or window, and then it waits |
| MuxChannel.SentIs | gojs/worker/lib.js:3686-3696 | when a packet was handed over, what is left of its write waits behind the others |
| MuxChannel.AddWindowIs | gojs/worker/lib.js:3709-3717 | after credit either the window is used up or no write waits |
| MuxChannel.Channel.DoRead | gojs/worker/lib.js:3216-3241 | of the object: at most the bytes asked for, off the front of what is unread; less only if nothing is left unread |
| MuxChannel.Channel.DoAddWindow | gojs/worker/lib.js:3709-3717 | credit wakes parked writers one after the other until the window is used up or none is left |
| MuxChannel.Channel.DoCloseWrite | gojs/worker/lib.js:3718-3726 | end of file is sent once and every parked writer is dropped |
| MuxChannel.Channel.DoDoClose | gojs/worker/lib.js:3727-3746 | the first close sends Close, a later one takes the channel down |
| MuxLink.NextInv | gojs/worker/lib.js:3649-3802 | every step of either end or pipe keeps windows, credit, buffers and the order of bytes accounted for, closing included |
| MuxLink.WindowsBalance | gojs/worker/lib.js:3649-3802 | in every reachable state with both ends open the receiver's window is the sender's plus data and credit in flight, and the channel window is the receiver's window plus what is buffered plus what was read and not credited |
| MuxLink.NeverFails | gojs/worker/lib.js:3793-3802 | neither throw of handleData is ever reached and no read buffer outgrows the channel window |
| MuxLink.ReadsArePrefixes | gojs/worker/lib.js:3662-3717 | what one end has read is always a prefix of what the other was given to write; an end of file before closing means that all of it was read |
| MuxLink.DrainOnly | gojs/worker/lib.js:3709-3717 | the loop that wakes writers only moves window into data sent |
| MuxWrites.StrandedExactly | gojs/worker/lib.js:3662-3717 | in every quiet state of every run the writes of an end are finished exactly if none has parked since it last got credit |
| MuxWrites.PromptRunsFinish | gojs/worker/lib.js:3662-3717 | where every hand-over ends before an answer to its packet is handled no write is stranded: once everything sent is read and credited every write is finished |
| MuxWrites.WriteFinishesExactly | gojs/worker/lib.js:3662-3717 | from every quiet state a write is finished in every quiet continuation without further writes if and only if it fits in one packet; for a longer one the stranding run is given |
| MuxWrites.SmallWritesFinish | gojs/worker/lib.js:3662-3717 | in every state of every run a write that fits in one packet and in the window is finished whenever credit comes |
| MuxEnds.EndsMeet | gojs/worker/lib.js:3718-3802 | in every run, when all has arrived, a side that has not closed has end of file exactly if the other ended its writing or closed; both have closed or none has |
| MuxEnds.NothingAfterClose | gojs/worker/lib.js:3727-3746 | in every run nothing is sent after a Close, and what is gone from its table was closed |
| MuxEnds.ClosedReadsEnd | gojs/worker/lib.js:3216-3241 | in every run a read of an end that has closed never waits |
| MuxPair.Pair.Step | gojs/worker/lib.js:3649-3802 | what two channel objects and the queues between them do is the step of the link, and the invariant of the link is kept |
| MuxPair.Drive | gojs/worker/lib.js:3649-3802 | objects driven through any run: no read returns more than it asked for; the bytes the reads of one side returned are a front of those given to the writes of the other; neither throw is reached, the windows balance, nothing is stranded where hand-overs end in time, and the ends agree on what has ended |
| MuxSession.EveryChannelIsALink | gojs/worker/lib.js:3475-3555 | in every run of two sessions with any number of channels each opened channel and its one far end are a link in order: no failure, balanced windows, reads that are prefixes of writes |
| MuxSession.EveryOpenIsAnswered | gojs/worker/lib.js:3447-3526 | in every run, when both pipes are empty, every channel that was opened has exactly one far end, each of the two has the id of the other, and both may send |
| MuxSession.NextInvs | gojs/worker/lib.js:3447-3555 | opening, accepting, using and receiving keep every channel of both tables in order |
| MuxSession.TurnLinks | gojs/worker/lib.js:3475-3502 | a message or an operation is a step of one channel and changes no other |
| MuxSession.KnownChannel | gojs/worker/lib.js:3534-3540 | a message is only ever addressed to an entry the receiver's table has had |
| MuxSession.AcceptInv | gojs/worker/lib.js:3505-3526 | accepting an Open gives its channel the only far end it will ever have |
| Paths.NamesSplit | fs/r2fs/r2fs.go:1542-1592 | at every depth composing a child path and taking its directory and base name undo each other |
| Paths.KeysDiffer | fs/r2fs/r2fs.go:144-195 | two paths with one object key are the same path |
| R2Listing.ListingComesBack | fs/r2fs/r2fs.go:1595-1636 | parsing a formatted listing gives the listing back if and only if no name or mode is empty or has white space |
| R2Listing.TextIs | fs/r2fs/r2fs.go:1617-1636 | the text of a listing: a line for each name in ascending order, the name, a space, its mode and a line feed |
| R2Listing.LineReads | fs/r2fs/r2fs.go:1595-1614 | a line says of its first word its second, whatever white space is around them and whatever follows |
| R2Listing.LineIgnored | fs/r2fs/r2fs.go:1599-1610 | a line of fewer than two words says nothing |
| R2Listing.LessIs | fs/r2fs/r2fs.go:1622-1627 | names are in ascending order: the front of a name before it, otherwise by the first place where they differ |
| R2Listing.SpaceIs | fs/r2fs/r2fs.go:1599-1606 | what splits words is Unicode white space |
| R2Listing.ParseDirectoryEntries | fs/r2fs/r2fs.go:1595-1614 | the loop over lines computes Parse, later lines winning |
| R2Listing.FormatDirectoryEntries | fs/r2fs/r2fs.go:1617-1636 | whatever order the map yields, the text is that of the names sorted |
| R2Listing.OrderIsUnique | fs/r2fs/r2fs.go:1622-1627 | there is one sorted listing of a set of names, so the text depends on the map alone |
| R2Cas.ListingIsFold | fs/r2fs/r2fs.go:1639-1734 | whatever the interleaving of any number of updates, the listing is the fold, in the order of their puts, of exactly the updates that succeeded, each once |
| R2Cas.ThreeTries | fs/r2fs/r2fs.go:1640-1702 | no call puts more than three times, and one that gives up lost each time to another call that succeeded after it began |
| R2Cas.LastUpdateWins | fs/r2fs/r2fs.go:1706-1734 | what the listing says of a name is what the last successful update of that name said |
| R2Cas.Listing.CompareAndSwap | fs/r2fs/r2fs.go:1639-1703 | the retry loop commits exactly once, at the first attempt nobody disturbed, or not at all |
| R2Tree.Store.Rename | fs/r2fs/r2fs.go:1277-1391 | in any order of the entries, exactly the subtree is re-keyed, its listings refreshed, what it does not overwrite at the destination left there, one entry added to the new parent and one dropped from the old; it fails without effect if the object or the new parent is missing |
| R2Tree.Store.Remove | fs/r2fs/r2fs.go:928-1002 | in any order of the entries, exactly the subtree and its entry in the parent go |
| R2Tree.Store.UpdateParent | fs/r2fs/r2fs.go:1706-1734 | one entry of the parent's listing is set or dropped, through the text |
| R2Tree.RenameExactly | fs/r2fs/r2fs.go:1277-1391 | after a rename everything is again listed in its parent exactly if it exists, if and only if everything below the destination was overwritten |
| R2Tree.RenameIs | fs/r2fs/r2fs.go:1277-1391 | object by object: contents and modes arrive as they were; every moved directory keeps its names; every object moved, and the new name itself, is listed with the mode it has, 33188 if it has none; elsewhere only the two listings change, by the one name each |
| R2Tree.RemoveIs | fs/r2fs/r2fs.go:928-1002 | object by object: the subtree goes, and of the rest only the one listing changes, by the one name |
| R2Tree.EntryLeftOver | fs/r2fs/r2fs.go:1320-1334 | an empty directory renamed onto one with an entry, whatever their names, leaves that entry in no listing |
| R2Tree.RemoveRestores | fs/r2fs/r2fs.go:928-1002 | after a remove everything is again listed in its parent if and only if it exists |
| R2Tree.RenameBack | fs/r2fs/r2fs.go:1277-1391 | renaming back restores every object and every listing |
| R2Tree.Rename | fs/r2fs/r2fs.go:1277-1391 | on a bucket where everything is listed in its parent exactly if it exists the subtree is re-keyed, and that is so again if and only if nothing of the old destination is left over |
| R2Tree.Remove | fs/r2fs/r2fs.go:928-1002 | on such a bucket exactly the subtree goes and that is so again |
| R2Tree.RenameAndBack | fs/r2fs/r2fs.go:1277-1391 | there and back again, by a name where nothing was, leaves every object and every listing as it was |
| CowRenames.ResolveTerminal | fs/cowfs/cowfs.go:191-223 | the loop ends on every map and fails exactly when a thousand renames can be followed, as on every cycle |
| CowRenames.CycleGoesOn | fs/cowfs/cowfs.go:205-209 | a path that comes back to itself can be followed any number of times, so both guards are one condition |
| CowRenames.RedirectedIsFlat | fs/cowfs/cowfs.go:428-458 | a rename to a fresh name keeps the map flat, leads every alias but the source itself to the new name and no other path anywhere else |
| CowRenames.FlatExactly | fs/cowfs/cowfs.go:428-458 | for a source in the base the map stays flat if and only if the new name is no alias and not the old name |
| CowRenames.RenamedToItself | fs/cowfs/cowfs.go:340-462 | renaming a file of the base to its own name makes it resolve to an error |
| CowRenames.ForgottenIsFlat | fs/cowfs/cowfs.go:610-616 | forgetting the aliases of a removed file keeps the map flat and every other path where it led |
| Cowfs.Cow.Remove | fs/cowfs/cowfs.go:476-619 | what was there, under all its names, is seen no more, only if nothing was below it; every other path shows what it showed; it fails exactly if neither layer nor a tombstone has it, or entries are found; no other answer is given |
| Cowfs.LooksEmpty | fs/cowfs/cowfs.go:541-592 | a directory that looks empty is refused if and only if the overlay has hidden entries of it |
| Cowfs.Cow.Create | fs/cowfs/cowfs.go:904-1033 | the path shows the file written, directories missing in the overlay are made and cover what the base has there, nothing else changes; everything stays in order if and only if the node fits |
| Cowfs.PutExactly | fs/cowfs/cowfs.go:960-1018 | a new node leaves what is seen a tree and the aliases hidden if and only if its name is no alias, no directory above it was removed and, unless it is a directory, nothing below it is seen |
| Cowfs.MadeShows | fs/cowfs/cowfs.go:650-660 | in a directory that is seen, a new node under all its names is all that changes |
| Cowfs.InRemovedDirectory | fs/cowfs/cowfs.go:960-990 | a file can be made in a directory that was removed, which stays hidden |
| Cowfs.Cow.Mkdir | fs/cowfs/cowfs.go:708-776 | it fails exactly if the overlay has the path or neither layer has its directory; otherwise the path shows a directory, and everything stays in order if and only if it fits |
| Cowfs.Cow.MakeSymlink | fs/cowfs/cowfs.go:631-697 | it fails exactly without a directory in either layer or over a directory with entries in the overlay; otherwise the path shows the link, and everything stays in order if and only if it fits |
| Cowfs.Cow.CopyIfNeeded | fs/cowfs/cowfs.go:266-282 | it fails exactly if nothing is seen, or for a file or link whose directory the overlay lacks; the overlay then has what was seen; what is seen changes nowhere |
| Cowfs.Cow.OpenForWriting | fs/cowfs/cowfs.go:904-1033 | the caller edits the content that was seen, wherever it was, and only that path changes |
| Cowfs.Cow.Rename | fs/cowfs/cowfs.go:340-462 | it fails exactly if nothing is seen at the old name or the overlay has entries at the new one; where the new name is no alias, it and every alias but the source show what the old name showed, and nothing else changed; where it is one, no name leads to the content any more, and the aliases are out of order |
| Cowfs.Cow.RenameDirectory | fs/cowfs/cowfs.go:340-462 | what was seen below a directory is seen below its new name, and there only, if and only if it is in the overlay alone but for what was removed from the base |
| Cowfs.DirMovesExactly | fs/cowfs/cowfs.go:340-462 | the same of the states: what leaves the base behind or brings removed entries to light is told exactly |
| Cowfs.LeftBehind | fs/cowfs/cowfs.go:340-462 | a file of the base stays where it was when its directory is renamed |
| Cowfs.Cow.RenameToSource | fs/cowfs/cowfs.go:340-462 | a file renamed to the name it resolves to shows there what it showed if and only if it was renamed by an alias and shown as the base has it |
| Cowfs.Cow.ReadDir | fs/cowfs/cowfs.go:1049-1128 | a listing names exactly the children that are there, and so those that Stat finds, but for names that are aliases of renamed files |
| Cowfs.Cow.Union | fs/fskit/overlayfile.go:41-78 | both lists are merged and exactly the hidden names are left out |
| Cowfs.Cow.Stat | fs/cowfs/cowfs.go:796-831 | the overlay is preferred, then the base, after tombstones and renames |
| Cowfs.ScaffoldHides | fs/cowfs/cowfs.go:650-660 | making visible directories in the overlay is seen by nobody |
| Cowfs.CopyUpHides | fs/cowfs/cowfs.go:266-282 | copying up a subtree of the base, hidden entries included, is seen by nobody |
| Memfs.MemFS.Rename | fs/memfs/memfs.go:574-661 | exactly the subtree moves, an empty destination is replaced, nothing else changes; paths and stored sizes are right again if and only if the destination is not below the source, which the code lets through |
| Memfs.RenameIs | fs/memfs/memfs.go:574-661 | node by node: what was at and below the old place is at and below the new one under the same names, nothing is left there, nothing else comes, and the rest stays |
| Memfs.RenameThereAndBack | fs/memfs/memfs.go:574-661 | a rename to where nothing is, and back, leaves the very same map, stored sizes and all |
| Memfs.SizesFollow | fs/memfs/memfs.go:107-146 | two maps in order with the same nodes have the same stored sizes |
| Memfs.MemFS.UpdateDirSize | fs/memfs/memfs.go:107-146 | the stored size becomes 2 plus the number of keys that are direct children |
| Memfs.MemFS.Remove | fs/memfs/memfs.go:529-572 | a file, or a directory that looks empty, goes; the map stays in order if and only if it was empty, hidden names counted |
| Memfs.MemFS.Mkdir | fs/memfs/memfs.go:356-391 | a directory is added exactly if it is absent and its parent is there, if only implied; the map stays in order if and only if that parent is a directory |
| Memfs.MemFS.Create | fs/memfs/memfs.go:323-354 | an empty file takes the place of whatever is there; the map stays in order if and only if nothing was below it and its parent is a directory |
| Memfs.MemFS.Symlink | fs/memfs/memfs.go:663-691 | a link takes the place of whatever is there; the map stays in order if and only if nothing was below it and its parent is a directory |
| Memfs.PutExactly | fs/memfs/memfs.go:323-354 | a node set at a path leaves every path with its parent and every size right if and only if its parent is a directory and nothing is below it |
| Memfs.DropExactly | fs/memfs/memfs.go:529-572 | a node taken away leaves the map in order if and only if it had no children |
| Memfs.MoveExactly | fs/memfs/memfs.go:574-661 | a moved subtree leaves the map in order if and only if its new place is not below its old one |
| Memfs.MoveIsSound | fs/memfs/memfs.go:574-661 | after a move every path has its parent and every directory the size of its children, moved ones included |
| Memfs.KidsMove | fs/memfs/memfs.go:625-646 | a moved directory has as many children as before |
| Memfs.RewriteIsInjective | fs/memfs/memfs.go:625-646 | no two keys are rewritten to one |
| Memfs.Implied | fs/memfs/memfs.go:203-321 | where every path has its parent no directory is only implied by what is below it |
| Paths.PrefixIsBelow | fs/memfs/memfs.go:625-632 | a key has the prefix of a directory and a slash exactly if it is below that directory |
| Paths.RewriteMoves | fs/memfs/memfs.go:625-646 | replacing the front of a key moves the path from below one directory to below the other |
| Paths.ChildHasNoSlash | fs/memfs/memfs.go:130-139 | what follows the prefix has no slash exactly if the key is a direct child |
| FileHandle.Handle.Write | fs/fskit/node.go:405-472 | bytes are written at the offset in all three cases, with zeros before them past the end |
| FileHandle.SplicedReads | fs/fskit/node.go:405-472 | what was written is read back where it was written and the rest is as it was |
| FileHandle.WriteThenRead | fs/fskit/node.go:308-472 | bytes written and sought back to are the bytes read, with the bytes around them as they were and zeros in a gap |
| FileHandle.Copy | fs/copy.go:157-160 | copying in pieces of any size gives the whole file |
| MemTree.RemoveAll | fs/remove.go:40-71 | exactly what can be seen at and below the path goes; it fails if and only if something hidden lies below an entry, and the map stays in order if and only if nothing is hidden |
| MemTree.HiddenInTheWay | fs/remove.go:55-71 | a directory holding only a hidden name keeps its own directory from going |
| MemTree.MkdirAll | fs/mkdir.go:33-60 | exactly the missing prefixes are made; the map stays in order if and only if the path is there or no prefix is anything but a directory |
| MemTree.CopyFS | fs/copy.go:20-39 | all that can be seen of the subtree is copied, bytes, link targets and modes as CopyOf says, and nothing else at the destination changes |
| MemTree.CopyFile | fs/copy.go:133-161 | a file arrives with its bytes and its mode |
| MemTree.OpenTruncated | fs/openfile.go:15-81 | without an operation of its own a file system opens an empty file of the given mode, new or truncated; the map stays in order if and only if it fits there |
| MemTree.CopyIs | fs/copy.go:20-192 | node by node: exactly what has no name starting with # on the way is there; files with bytes and mode, links with target and mode 0777, directories with their mode, or 0500 more where both of these bits were missing |
| MemTree.RemoveAllIs | fs/remove.go:40-71 | node by node: exactly what is behind a name starting with # is left of the subtree |
| MemTree.MkdirAllIs | fs/mkdir.go:33-60 | node by node: the missing prefixes are there as directories of the mode given, the rest is as it was |
| MemTree.CopyEquals | fs/copy.go:163-192 | a copy equals its source if and only if nothing is hidden, links have mode 0777 and the owner can read or enter every directory |
| NineP.ParseFindsMessages | wasm/9pchan.go:99-119 | messages put end to end, then part of one, are cut into exactly those messages |
| NineP.ParseKeepsBytes | wasm/9pchan.go:99-119 | the messages cut and the bytes left over are the stream |
| NineP.ParseGoesOn | wasm/9pchan.go:86-119 | cutting what came so far and going on with the rest is cutting the whole stream |
| NineP.Extract | wasm/9pchan.go:99-119 | the loop computes Parse, and stops at a size below 7 |
| NineP.P9Channel.Write | wasm/9pchan.go:86-127 | responses that find their callback are delivered in order, others dropped; after a bad size nothing of the call is delivered |
| NineP.ChunksDoNotMatter | wasm/9pchan.go:86-127 | however the response stream is cut into writes, the same is delivered and the same is left |
| NineP.RunBuffers | wasm/9pchan.go:86-127 | in every run what is buffered is what the parser leaves of the whole stream |
| NineP.RunCorrelates | wasm/9pchan.go:67-127 | in every run a callback gets at most one response, and one with its own tag |
| NineP.RunCompletes | wasm/9pchan.go:67-127 | for every run: no request loses its callback if and only if every step is harmless |
| NineP.Serve | wasm/9pchan.go:67-127 | a channel object through any run: each callback got at most one response, one with its own tag; none is lost exactly if every step was harmless; what is buffered is what the parser leaves |
| NineP.ReusedTag | wasm/9pchan.go:67-127 | in every run a request under a tag that is out takes the callback of the earlier one away, whatever comes after |
| NineP.FieldsAre | wasm/9pchan.go:71-113 | the size of a message is its first four bytes and the tag its sixth and seventh, least significant first |
| NineP.MessageReads | wasm/9pchan.go:67-119 | a message built from size[4] type[1] tag[2] and a body is a message with that tag |
| NineP.AnswersFindTheirRequests | wasm/9pchan.go:67-127 | requests built with distinct tags, then answers built with some of them, of any type and in any order: each is delivered as built to the callback of the request with its tag and to no other, and exactly the other requests still wait |
| NineP.AnswerForNobody | wasm/9pchan.go:112-117 | an answer built with a tag that is not out is dropped |
| NineP.PortWriter.Write | wasm/9pchan.go:164-191 | every whole message is posted and the rest kept |
| NineP.ByteFramer.Byte | v86/main.go:169-192 | one byte more posts a message exactly when it completes one |
| NineP.Feed | v86/main.go:157-192 | fed byte by byte any stream is cut as ByteCut says |
| NineP.BytesAgree | v86/main.go:157-192 | the byte-wise framer cuts a stream as the parser does if and only if no message of 4, 5 or 6 bytes is in it |
| NineP.PrefixedIs | cmd/wanix/serve.go:251-294 | a message goes behind its length in four bytes, most significant first |
| NineP.QemuAdapter.Read | cmd/wanix/serve.go:251-270 | the bytes given and still buffered are every message read, each behind its length; fewer than asked for only where a message ends |
| NineP.QemuAdapter.Write | cmd/wanix/serve.go:272-294 | the messages sent, behind their lengths, and the buffer are the bytes written; one call sends at most one |
| Syncfs.ScansAreDisjoint | fs/syncfs/syncfs.go:120-131 | no path is both pulled and pushed by a first synchronization |
| Syncfs.FirstInStep | fs/syncfs/syncfs.go:68-342 | after a first synchronization both sides have the same paths; each agrees, or was on both sides with the remote less than two seconds ahead and was left alone, or is a directory that kept its mode; but for directories whose times moved on the way |
| Syncfs.FirstIs | fs/syncfs/syncfs.go:68-342 | path by path: a path of one side goes to the other; with the remote two seconds or more ahead its entry comes, but for the mode of a directory; with the local side ahead its entry goes; otherwise both stay |
| Syncfs.LaterIs | fs/syncfs/syncfs.go:68-342 | path by path: what is recorded as changed goes to the remote or is deleted there, what the remote alone has and no record speaks of comes, all else stays |
| Syncfs.ModesAfter | fs/syncfs/syncfs.go:267-330 | the modes of a directory on both sides agree after a first synchronization exactly if they did before or the local side was ahead |
| Syncfs.LaterInStep | fs/syncfs/syncfs.go:68-342 | a later one pulls exactly what the remote has and neither side of the record knows, sends what was done here, and brings both sides in step |
| Syncfs.DropLoses | fs/syncfs/syncfs.go:362-378 | a removal loses its path exactly if it takes back a change of something the remote has |
| Syncfs.PutIsTracked | fs/syncfs/syncfs.go:362-378 | a change is recorded, what was lost under its path is so no more, and the record stays true |
| Syncfs.SyncFS.PullScan | fs/syncfs/syncfs.go:90-136 | the walk over the index finds exactly what is ahead by two seconds or missing here, and not removed here |
| Syncfs.SyncFS.PushScan | fs/syncfs/syncfs.go:138-175 | the walk over the local side, only the first time, finds exactly what is ahead or missing there |
| Syncfs.SyncFS.Push | fs/syncfs/syncfs.go:190-262 | the remote gets every recorded entry as it is here and loses every recorded removal |
| Syncfs.SyncFS.Pull | fs/syncfs/syncfs.go:267-330 | directories made, files copied, times set last: each pulled path is as at the remote |
| Syncfs.SyncFS.Sync | fs/syncfs/syncfs.go:68-342 | the whole new state of both sides and of the record, for any record without conflicts |
| Syncfs.SyncFS.SyncLater | fs/syncfs/syncfs.go:68-342 | between synchronizations only what was lost comes back, and the remote follows what was done here |
| Syncfs.SyncFS.Remove | fs/syncfs/syncfs.go:491-503 | exactly when a removed path is lost |
| Syncfs.SyncTwice | fs/syncfs/syncfs.go:68-342 | a second synchronization right after a first pulls and pushes nothing |
| Syncfs.RemovedComesBack | fs/syncfs/syncfs.go:362-378 | a file changed, removed and synchronized is there again with its old content |
| MetaKeys.OneKey | fs/metacache/metacache.go:84-95 | for names that no suffix ends, path and kind can be told from the key |
| MetaKeys.PrefixOfKey | fs/metacache/metacache.go:110-119 | the keys starting with the name of a directory and a slash are those of what is below it |
| MetaAnswers.AnswersSay | fs/metacache/metacache.go:423-560 | what a right answer says: Lstat of a link the link, Stat and listings its target; every child with its type; of a directory time and size may differ |
| MetaAnswers.KeptExactly | fs/metacache/metacache.go:84-119 | coherence is kept exactly if no entry is kept whose answer changed |
| MetaAnswers.LinksExactly | fs/metacache/metacache.go:423-445 | after a change at one path the kept answers for links are right if and only if none is for a link to what the change shows |
| MetaAnswers.ShownExactly | fs/metacache/metacache.go:528-560 | a change at a path shows in its own info, in its own listing where it can be listed no more or now, and in the listing of its directory where its entry changed, and nowhere else |
| MetaAnswers.ReplacedExactly | fs/metacache/metacache.go:406-416 | after a path's own entries and its parent's listing are dropped a new node there leaves nothing stale exactly if no answer is kept for a link to what it changes |
| MetaAnswers.MadeExactly | fs/metacache/metacache.go:579-585 | dropping the listing of the parent is enough after Mkdir exactly if nothing of the name is cached |
| MetaAnswers.MadeAllExactly | fs/metacache/metacache.go:588-601 | dropping every prefix, and the listing it is in, is enough after MkdirAll exactly if no answer is kept for a link to a prefix that is made, and no listing for a link to where one is |
| MetaAnswers.RemovedAllExactly | fs/metacache/metacache.go:614-621 | dropping what is below is enough after RemoveAll exactly if no answer is kept for a link to what goes, and no listing for a link to where it was |
| MetaAnswers.RemovedRootExactly | fs/metacache/metacache.go:108-119 | after RemoveAll of the root it is enough exactly if nothing below is cached but for links to nothing |
| MetaAnswers.RenamedNeeds | fs/metacache/metacache.go:624-633 | coherence after Rename needs that nothing inside is cached, at its old place or its new one, but for links to nothing |
| MetaAnswers.RenamedExactly | fs/metacache/metacache.go:624-633 | after Rename coherence is kept if and only if nothing inside is cached at either place, but for links to nothing, and no answer for a link elsewhere to what changes |
| MetaAnswers.WrittenExactly | fs/metacache/metacache.go:272-306 | a write through a handle leaves nothing stale exactly if the file is as it was or no Stat is kept for a link to it |
| Metacache.FS.Invalidate | fs/metacache/metacache.go:84-95 | exactly the three entries of a path go |
| Metacache.FS.InvalidateDir | fs/metacache/metacache.go:97-119 | exactly the entries of a directory and of all below it go, but of the root only its own |
| Metacache.FS.Fetch | fs/metacache/metacache.go:428-560 | a hit or a fetched answer is what the file system answers; which answers are kept, for how long, and when they are to be renewed |
| Metacache.FS.Refresh | fs/metacache/metacache.go:499-573 | a refresh keeps coherence, whether it finds an answer or only prolongs the entry |
| Metacache.FS.Replace | fs/metacache/metacache.go:388-416 | after Create, Symlink, Remove and OpenFile with create or truncate: coherent exactly if no answer is kept for a link to the path or its directory that the change shows in |
| Metacache.FS.Alter | fs/metacache/metacache.go:636-679 | after Truncate, Chmod, Chown and Chtimes: coherent exactly if the info did not change or no Stat is kept for a link to the path |
| Metacache.FS.Mkdir | fs/metacache/metacache.go:579-585 | after Mkdir: coherent exactly if nothing was cached of the name, nor for a link to it, nor a listing for a link to its directory |
| Metacache.FS.MkdirAll | fs/metacache/metacache.go:588-601 | after MkdirAll: coherent exactly if no answer is kept for a link to a prefix that is made, and no listing for a link to where one is |
| Metacache.FS.RemoveAll | fs/metacache/metacache.go:614-621 | after RemoveAll: coherent exactly if no answer is kept for a link to what goes or a listing for a link to where it was; at the root exactly if nothing below was cached |
| Metacache.FS.Rename | fs/metacache/metacache.go:624-633 | after Rename: coherent exactly if nothing inside the directory was cached at its old or its new place, and no answer for a link elsewhere to what changes |
| Metacache.Handle.Write | fs/metacache/metacache.go:272-295 | writing keeps coherence but for the info of the handle's path, exactly if no Stat is kept for a link to it |
| Metacache.Handle.Close | fs/metacache/metacache.go:298-305 | closing a handle written to makes its path count again: coherent exactly if no answer is kept for a link that the change shows in |
| Metacache.Handle.Stat | fs/metacache/metacache.go:254-269 | Stat of a handle keeps that file's info: coherent exactly if it is still the info of the name |
| Metacache.MadeButMissing | fs/metacache/metacache.go:579-585 | a name asked for, made and asked for again is missing still |
| Metacache.StaleThroughLink | fs/metacache/metacache.go:655-661 | Stat of a link to a file whose mode is changed afterwards still gives the old mode |
| VfsBindings.NS.Mutate | fs/vfs/vfs.go:84-95 | the published map is the fold of the committed changes; only new objects are written, so every earlier map keeps what it held |
| VfsBindings.NS.Snapshot | fs/vfs/vfs.go:77-79 | a reader gets a published map holding the fold of the changes so far |
| VfsBindings.NS.Clone | fs/vfs/vfs.go:97-106 | a clone holds the same and shares nothing |
| VfsBindings.NS.RunWriters | fs/vfs/vfs.go:84-95 | whatever writers run, whoever holds an earlier map finds in it what was there |
| VfsBindings.Prepare | fs/vfs/vfs.go:84-95 | the private copy is changed as the change says, and nothing that existed before is written |
| VfsBindings.ApplyBind | fs/vfs/vfs.go:287-297 | the target is put before, after or in place of what was bound |
| VfsBindings.BindIs | fs/vfs/vfs.go:287-297 | after a bind the target is first, last or alone, by the mode, with what was bound before in its order; other names keep theirs |
| VfsBindings.UnbindIs | fs/vfs/vfs.go:225-232 | after an unbind the target is nowhere in the list and all others are, as often as before; the name is bound exactly if another target was |
| VfsBindings.UnbindAllIs | fs/vfs/vfs.go:197-207 | exactly the names starting with # are left, as they were |
| VfsBindings.WithoutInOrder | fs/vfs/vfs.go:226-228 | what is left is in the order it was in |
| VfsBindings.ApplyUnbind | fs/vfs/vfs.go:225-232 | the target goes from the list, in place, and an empty list goes from the map |
| VfsBindings.ApplyUnbindAll | fs/vfs/vfs.go:197-207 | exactly the special names stay |
| VfsBindings.DeleteEqual | fs/vfs/vfs.go:226-228 | deleting in place leaves the other targets in order |
| VfsBindings.WithoutIs | fs/vfs/vfs.go:226-228 | exactly the targets equal to the one removed are gone |
| VfsBindings.ApplyKeepsNoneEmpty | fs/vfs/vfs.go:229-231 | no change leaves a name with an empty list |
| Signal.ExactlyOnce | fs/signal/broadcaster.go:44-58 | in every interleaving a frame, whoever broadcasts it, is consumed by, queued for or still to be sent to a subscriber exactly once if it was registered at the lock and not excluded, and never otherwise |
| Signal.OwnFramesNeverRead | fs/signal/fsys.go:158-202 | in every run an end that reads and writes has no frame of its own: none consumed, none in its channel, none still to be sent to it |
| Signal.DoomedExactly | fs/signal/broadcaster.go:33-69 | in every run something is left to be sent to a closed channel, which ends the program, if and only if a step closed a channel that something was still to be sent to |
| Signal.LeavesTooSoon | fs/signal/broadcaster.go:33-57 | a subscriber that leaves between a broadcast and its send is enough for that |
| Signal.ReadsAreFrames | fs/signal/fsys.go:86-107 | in every run the pieces read are, end to end, the frames taken, but for what is left of the last |
| Signal.ReadsInSendOrder | fs/signal/fsys.go:86-107 | in every run what the reads of a subscriber returned is a front of the frames sent to it, end to end in the order of the sends; at most 64 of them are waiting in its channel |
| Signal.ReadIs | fs/signal/fsys.go:86-107 | one read takes up to the bytes asked for off the front of the frame in use, or else of the next; fewer only where that frame ends |
| Signal.RunInv | fs/signal/broadcaster.go:23-69 | registering, removing, closing, broadcasting, sending and reading keep both |
| Signal.Targets | fs/signal/broadcaster.go:45-53 | the loop picks every subscriber but the excluded one, each once |
| Signal.Reader.Read | fs/signal/fsys.go:86-107 | a read gives the front of what is left of a frame, or of the next, at most the bytes asked for and fewer only if that is all, and keeps the rest |
| Signal.ReadWriter.Ensure | fs/signal/fsys.go:158-164 | an end that is not closed subscribes the first time, under a new id |
| Signal.ReadWriter.Write | fs/signal/fsys.go:198-202 | everybody registered is a target of what the end writes, once each, and the end itself is not |
| WasmRefs.StartIsSound | wasm/wasm_exec.go.js:472-490 | the tables start out in order |
| WasmRefs.Table.StoreValue | wasm/wasm_exec.go.js:140-188 | the word stored has the type flag of the value, and loads as it; known values keep their id, new ones get a free one, and the tables stay in order |
| WasmRefs.Table.FinalizeRef | wasm/wasm_exec.go.js:300-310 | the last reference to an id frees it and only that; predefined ids stay; the tables stay in order |
| WasmRefs.Table.LoadReference | wasm/wasm_exec.go.js:127-138 | every reference that is out loads the value it was made from |
| WasmRefs.CountIsOut | wasm/wasm_exec.go.js:300-310 | the count of an id is the number of its references that are out |
| WasmRefs.MakeIsSound | wasm/wasm_exec.go.js:159-168 | a new id was dead or never used: ids and values stay inverse and the pool holds each dead id once |
| WasmRefs.FinalizedIsSound | wasm/wasm_exec.go.js:300-310 | giving back a reference that is out keeps the tables in order, and the value is known exactly while references are out |
| WasmRefs.LastGoes | wasm/wasm_exec.go.js:303-309 | the last reference takes the value from the tables and its id to the pool |

## Left out

- The CBOR codec: floating-point numbers, tags, records, shared structures, packed values, bundled
  strings, maps with keys that are no text, items of indefinite length and the Node buffer variant.
- JavaScript's own order of integer-like object keys; entries are kept in the order written.
- `CborWriter.Writer.Encode`: promises nothing within the last ten bytes below the largest buffer, because
  the code writes past its end there without an error.
- Native text encoder and decoder are described by what they do to lone surrogates and byte order marks.
- The multiplexer: transport errors, `Session.close`, and the failure answer to an Open, which no peer
  running this code receives.  Awaits are points where other steps may run, except the one inside
  `closeWrite`, whose flush is taken together with its message.
- The object store: the head cache, timestamps, ownership, `createFile`'s unconditional put, clean-up
  after partial failures, and a base path in front of keys.
- `R2Tree.Store.Rename`: assumes two paths of which neither is below the other, and parents that are
  directories; the code does not check this, and a destination that is there below the source makes the
  recursion endless.
- `R2Tree.Store.Remove`: assumes that at and below the path listings and objects agree.
- The copy-on-write file system: whiteout files, modes and times, opening with create but without truncate,
  and symbolic links in the parents of a path.
- `Cowfs.Cow.Create`: assumes no file of the overlay above the path, and no directory of the overlay at it.
- `Cowfs.Cow.Mkdir`: assumes no file of the overlay above the path.
- `Cowfs.Cow.MakeSymlink`: assumes no file of the overlay above the path.
- `Cowfs.Cow.Rename`: assumes a file or a link, a directory that is seen for the new name, which is none, and a
  new name that is not the source; that is `Cowfs.Cow.RenameToSource`.
- `Cowfs.Cow.RenameDirectory`: assumes a new name that is no alias, in a directory that is seen and with nothing
  below it in either layer; says nothing of aliases that lead below the directory.
- The in-memory file system: following symbolic links, node identity across renames for open handles,
  owners and times, readers and writers that nodes may carry.
- `Memfs.MemFS.Rename`: assumes that neither path is the root.
- `MemTree.CopyFS`: assumes, as the comment of `CopyAll` asks, a destination that is absent, or an empty root.
- 9P: the transports, and what happens to requests on their way to the server.
- Synchronization: failures, transport and archive format, conflicts (a path changed here while the remote is
  ahead, or a directory on one side only), renames, and the remote changing a directory's time when it is patched.
- `Syncfs.SyncFS.Put`: one operation for every recorded write; assumes the clock is not two seconds behind the
  remote's time of the path.
- The metadata cache: a refresh that overlaps a change, `SetTTL`, listings through open handles, and links
  that lead to links or lie inside a path.
- `Metacache.FS.Rename`: assumes, as a successful rename does, that nothing was inside the destination.
- `Syncfs.SyncFS.Sync`: assumes no conflict, and kinds that agree.
- `Metacache.FS.MkdirAll`: assumes that a failing call changed nothing; so do the other operations.
- Namespaces: resolving, opening and allocating what is bound.  An `append` always moves to a new array, which
  it may not need to.
- Subscribers: what a send to a closed channel does to the rest of the program, and two reads of one end at a
  time.
- The reference table: negative zero and the infinities, memory beyond the one word, and the words of strings and numbers that
  are no references.
- User interface, terminals, scripts, the command line, API handlers and field files: glue or one-branch
  facts that would only add easy members.
