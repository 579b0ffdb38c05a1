# Verified model of the vi53xx driver and library

The vi53xx sources are a Linux driver for PCI Express boards (`driver/`) and a user-space library
(`lib/`). This project models, in Dafny, the parts of both that carry invariants, and proves what
they keep over whole runs. Imperative code is modelled by classes, arrays and loops; each method is
proved equal to a function of its inputs or old state, or against its property outright, and
the lemmas are about those functions.

| file | what it models |
|---|---|
| `IdBitmap.dfy` | the 128 ids packed into 16 bytes, as a finite set |
| `Registry.dfy` | the board -> idx table on top of the ids, as an injective map |
| `SlotClaim.dfy` | the compare-and-swap scan for a free slot, over all interleavings |
| `Duplicates.dfy` | the duplicate-board detector |
| `Library.dfy` | check, open and close of boards; the online count |
| `Text.dfy`, `Mapping.dfy` | printf/scanf conversions (sections 7.21.6.1 and 7.21.6.2 of C11); the mapping printer and its parser |
| `Naming.dfy` | instance numbers, node names, and the path the library opens |
| `Descriptors.dfy` | the descriptor compiler |
| `Engine.dfy` | a descriptor engine over bytes of bus memory ("Descriptors" section of Xilinx product guide PG195), and the meaning of a chain |
| `Transfer.dfy` | what the moves do to host and card memory; the round trip |
| `Channels.dfy` | the channel registers, their separation, and the descriptor credits |
| `DeviceMap.dfy` | mapping a device with goto unwinding, against a ledger |
| `DmaLedger.dfy` | DMA memory from channel initialisation to release, against a ledger |
| `DigitalInput.dfy` | digital-input commands as an encoder with a decoder and a latch trace |
| `Tables.dfy`, `Ledgers.dfy` | pointer tables keyed by board; held pointers against live blocks |
| `Wrappers.dfy`, `Bits.dfy`, `Counting.dfy` | optional values; bitwise operations on natural numbers; cardinalities and the pigeonhole principle |

Allocation results, descriptors returned by `open`, PCI calls and file contents are parameters, so
every theorem is over every pattern of their outcomes. Pointers to heap records (`dev_handle_list`,
`dev_boardid_to_idx_list`) are optional values.

## What the proofs found

These expectations are false of the code. Each is proved in its exact form.

- `release_idx` of a board that was never registered frees id 0, because `_get_idx` answers 0 for
  "absent". The registry invariant survives a release exactly when the board is registered or id 0 is
  free (`Registry.UnregisterExact`; `Registry.UnsoundRelease` is a run that gives two boards one idx).
- The instance is printed in decimal and read as hexadecimal. The parsed record equals the printed one
  exactly for instances below 10. The path of one board is the node name of another exactly when they are of
  one type and the first instance, read as hexadecimal, is the second: opening instance 10 opens
  instance 16 when there is one. Different boards still get different paths (`Mapping.RoundTripExactly`,
  `Naming.PathHits`, `Naming.PathsExact`).
- A listed board need not open. It opens exactly when some listed board of its type has a node and the minor of
  that board is its own read as hexadecimal; nothing says that this node exists, or that it is its own. And a
  first check of several boards does not return 0 when one of them has id 0 (`Library.ListedBoardsOpen`).
- device_create reports a failure by an error pointer, but driver/vi53xx_cndev_core.c:98 looks for NULL. A
  board whose node was not made is then listed like any other; its node exists exactly when
  device_create made it (`Naming.NodeExactly`).
- The reader's line buffer is not cleared: a line of at most 10 characters behind a device's line gives a second
  record of that device's numbers under another name (`Mapping.ShortLineKeepsFields`,
  `Mapping.ShortLineRepeats`). The printer does not cut long names: a device whose name has 11 characters
  is not read at all (`Mapping.LongNameLost`).
- Node names repeat after 2^20 numbered probes of a type, since only 20 bits of the instance reach
  the minor number (`Naming.NamesRepeatExactly`).
- Closing boards that are not open can free the board list under open handles: the online-th stray
  close does it (`Library.StrayCloses`). In runs that close only open boards the list is never freed,
  not even with the last handle (`Library.NoEarlyRelease`).
- The comment above `check_boards_info` (lib/vi53xx_xdma.c:896-900) promises a negative result when there is no
  memory, no file or no board. The result is negative exactly when a first check is refused memory; a first
  check keeps the promise exactly when memory was refused or boards are listed, a second one, which
  returns 0 at once, exactly when memory was there and boards are listed (`Library.CheckContract`). After a check
  that found nothing, only a close makes the next check look again (`Library.NoRetryBeforeClose`).
- The duplicate detector also compares with the zeroed record behind the list, so one of several boards
  with id 0 counts as a duplicate, and its error list fits for every list of n boards only up to 64
  boards (`Duplicates.DetectorExact`, `Duplicates.ErrorsFitExactly`).
- A buffer longer than 0x2000 bytes before another is overwritten on the card by a later one, unless its window
  is the one that ends at or beyond 4 GiB, where the window addresses start again; and a descriptor carries only
  the low 28 bits of a length (`Transfer.RoundTripExactly`, `Transfer.ApartExactly`, `Engine.LengthsExactly`).
- A BAR whose length is 2 GiB modulo 4 GiB or more makes the mapping fail, because the length passes
  through an `int` (`DeviceMap.XdmaDev.MapBars`, `DeviceMap.LengthsThatPass`).
- Digital-input commands are not all distinguishable. A command for channel 0 is strobed without a write to
  the banks, so the card latches the command before it again (`DigitalInput.ChannelZeroRepeats`). From 2.5 V on
  the code runs into the control field: the banks are those of another, decodable command exactly when the or-ed
  field is one of the eight control values (`DigitalInput.TakenForCommand`), as when a low threshold of 2.5 V on
  channel 1 acts as one of 0 V on channel 2 (`DigitalInput.WrongChannel`); and every call on a channel has one
  with another code and the same banks (`DigitalInput.Collides`). Below 2.5 V on channels 1 to 16 the banks
  tell all commands apart (`DigitalInput.DecodableInjective`).
- Nothing clears a bit of the mode-enable register (`Channels.ModeExact`): a pair that goes back to a
  single descriptor stays in credit mode and is granted no credit for it, so that once stopped its engine moves
  nothing (`Channels.BackToOneStalls`; `Channels.ConfiguredChainRuns` is the exact condition).
- `vi53xx_info_init` ignores a refused buffer (driver/vi53xx_xdma_drv.c:87), and the descriptor block may still be
  granted. On a new device the engine of that pair then moves the channel's full size, which is not 0, at bus
  address 0; it moves the held buffer exactly when the buffer was granted
  (`DmaLedger.Device.InitialisedPairMoves`).

The findings about windows and credits concern the functions of driver/libxdma.c by themselves: they need more
than one descriptor, and the driver as shipped always compiles one (driver/libxdma.h:124,
driver/vi53xx_xdma_drv.c:82). For it `Channels.PlainPairRuns` holds, and, when all allocations are granted,
`DmaLedger.Device.InitialisedRoundTrip` gives the expected transfer.

## Model

| member | source | states |
|---|---|---|
| IdBitmap.TakeIdRefines | lib/vi53xx_xdma.c:129-145 | allocation returns the least id not taken and adds exactly it; with all 128 taken it returns 0 and changes no byte |
| IdBitmap.TakenBit | lib/vi53xx_xdma.c:129-142 | an allocation of id n sets bit n % 8 of byte n / 8 and changes no other byte |
| IdBitmap.FreeIdRemoves | lib/vi53xx_xdma.c:147-156 | freeing removes exactly the given id; an id out of range removes nothing |
| IdBitmap.FreeUndoesTake | lib/vi53xx_xdma.c:129-156 | freeing the id just allocated restores all 16 bytes |
| IdBitmap.IdsDetermineBytes | lib/vi53xx_xdma.c:25 | the 16 bytes carry nothing but the set of ids |
| IdBitmap.Bitmap.Clear | lib/vi53xx_xdma.c:120-127 | init_id_bitmap zeroes all 16 bytes |
| IdBitmap.Bitmap.GetUniqueId | lib/vi53xx_xdma.c:129-145 | the bit-by-bit scan takes the least absent id of the set the bytes encode |
| IdBitmap.Bitmap.DestroyId | lib/vi53xx_xdma.c:147-156 | clears the id's bit when the id is in range, otherwise nothing |
| Registry.FullTogether | lib/vi53xx_xdma.c:984-998 | the table is full exactly when the bitmap is, which is when 128 boards are registered |
| Registry.RegisterRefines | lib/vi53xx_xdma.c:972-999 | get_idx keeps the invariant and is insertion into an injective map: the known idx, or the least unused one; 0 or -ENOMEM with nothing changed when full or out of memory |
| Registry.UnregisterExact | lib/vi53xx_xdma.c:1009-1026 | release_idx removes the board from the map, and keeps the invariant if and only if the board was registered or id 0 was free |
| Registry.UnsoundRelease | lib/vi53xx_xdma.c:1009-1026 | a concrete run in which releasing an unknown board lets two boards share idx 0 |
| Registry.EmptyInv | lib/vi53xx_xdma.c:889-894 | init_config establishes the invariant with no board registered |
| Registry.RefinesMap | lib/vi53xx_xdma.c:889-1026 | over every run of get_idx, init_config and releases that are sound, table and bitmap give the same results and contents as an injective map, and the invariant holds throughout |
| Registry.IdxIsStable | lib/vi53xx_xdma.c:977-982 | while a board is neither released nor the registry re-initialised its idx never changes and no other registered board has it |
| Registry.IdxRegistry.Init | lib/vi53xx_xdma.c:868-894 | empties table and bitmap |
| Registry.IdxRegistry.LookupIdx | lib/vi53xx_xdma.c:158-171 | the scan of `_get_idx`: the idx of the first slot of the board, 0 when there is none |
| Registry.IdxRegistry.GetIdx | lib/vi53xx_xdma.c:972-999 | both scans and the id allocation change table and bitmap exactly as the specification says |
| Registry.IdxRegistry.ReleaseIdx | lib/vi53xx_xdma.c:1009-1026 | frees the looked-up id and empties every slot of the board |
| SlotClaim.NoOverwrite | lib/vi53xx_xdma.c:992-996 | in no schedule is an occupied slot ever overwritten |
| SlotClaim.OneSlotEach | lib/vi53xx_xdma.c:992-996 | a thread holds a slot exactly when its record is there, and the slot was free at the start; hence one slot each and no sharing |
| SlotClaim.FilledInOrder | lib/vi53xx_xdma.c:992-996 | no slot is taken above one that is still free |
| SlotClaim.ClaimsConserveSlots | lib/vi53xx_xdma.c:992-996 | successful threads plus free slots stay constant |
| SlotClaim.NobodyFallsOff | lib/vi53xx_xdma.c:1081-1087 | with at least as many free slots as threads, no thread reaches the end of the table |
| SlotClaim.Winners | lib/vi53xx_xdma.c:1081-1087 | when all threads are done, exactly min(threads, free slots) of them succeeded |
| SlotClaim.EveryScanEnds | lib/vi53xx_xdma.c:1081-1087 | a thread is done after one turn more of its own than there are slots, whatever the others do |
| SlotClaim.SoloScan | lib/vi53xx_xdma.c:992-998 | one thread alone takes the first free slot, or none when all are occupied |
| Duplicates.DetectorExact | lib/vi53xx_xdma.c:816-835 | for any list but a single board, the result is twice the number of entries with an equal later one, the zeroed record counted; it is 0 if and only if the ids are distinct and nonzero |
| Duplicates.ErrorAt | lib/vi53xx_xdma.c:826-829 | every matched entry stands in the error list behind those of earlier entries, followed by its nearest later match |
| Duplicates.PassMeansDistinct | lib/vi53xx_xdma.c:816-835 | result 0 means distinct ids, for any number of boards |
| Duplicates.ErrorsFitExactly | lib/vi53xx_xdma.c:842-857 | the error block of 128 records suffices for all lists of n boards if and only if n <= 64 |
| Duplicates.CheckBoardsInfo | lib/vi53xx_xdma.c:816-835 | the nested scan writes exactly the specified error list and returns its length; 0 for a single board |
| Duplicates.CheckRecord | lib/vi53xx_xdma.c:825-831 | the inner scan reports the record with its nearest later match, or nothing |
| Text.HexReadingGrows | lib/vi53xx_xdma.c:802 | reading a decimal text as hexadecimal is strictly increasing |
| Text.HexReadingBounds | lib/vi53xx_xdma.c:802 | it gives the number itself exactly below 10, and never less |
| Text.ScanSignedDec | lib/vi53xx_xdma.c:802 | `%d` reads back every 32-bit word that `%d` printed |
| Text.ScanHex | lib/vi53xx_xdma.c:802 | `%x` reads back every 32-bit word printed as 0x and `%x` |
| Text.ScanDecimalAsHex | lib/vi53xx_xdma.c:802 | `%x` on a decimal minor number gives its hexadecimal reading |
| Text.ScanLimits | lib/vi53xx_xdma.c:802 | which numbers the 32-bit objects of `%d` and `%x` can represent; beyond them the conversion has no meaning |
| Mapping.MappingShow | driver/vi53xx_proc.c:74-90 | the loop prints the listing, one line a device in list order |
| Mapping.LineTexts | driver/vi53xx_proc.c:81-86 | the printed text of two devices, character by character |
| Mapping.Fgets | lib/vi53xx_xdma.c:799 | a line of at most 255 characters and a NUL; what the buffer held behind it stays |
| Mapping.TakenByNumber | lib/vi53xx_xdma.c:789-799 | fgets takes the line with its newline, at most 255 characters |
| Mapping.Strtok | lib/vi53xx_xdma.c:793-801 | the first token, ended by a NUL in the buffer |
| Mapping.ExtractLine | lib/vi53xx_xdma.c:799-810 | one turn of the reading loop: a record is appended exactly when three fields were scanned |
| Mapping.RecordedByNumber | lib/vi53xx_xdma.c:801-809 | a line with three fields is recorded if its name has 1 to 31 characters and fewer than 128 records were read; else it has no meaning |
| Mapping.ExtractValue | lib/vi53xx_xdma.c:787-814 | on every text with a defined meaning in C, the records read and their number; the rest of the block is untouched |
| Mapping.ReadLineOf | lib/vi53xx_xdma.c:799-810 | one printed line gives the device's record whatever the line buffer held before |
| Mapping.ReadsBack | lib/vi53xx_xdma.c:787-814 | reading any listing of at most 128 devices gives the same records in the same order, the instance read as hexadecimal |
| Mapping.ReadTexts | lib/vi53xx_xdma.c:799-810 | the records read from a concrete text, an instance of 12 coming back as 18 |
| Mapping.ShortLineKeepsFields | lib/vi53xx_xdma.c:799-802 | a line of at most 10 characters leaves the fields of the line before it to be scanned |
| Mapping.ShortLineRepeats | lib/vi53xx_xdma.c:799-809 | so a short line behind a device's line gives a second record with the same numbers |
| Mapping.LongNameLost | lib/vi53xx_xdma.c:801-802 | a printed device whose name has 11 characters gives no record |
| Mapping.RoundTripExactly | lib/vi53xx_xdma.c:799-810 | the records read are those printed if and only if every instance is below 10 |
| Naming.MinorOfMkdev | driver/vi53xx_cndev_core.c:138-139 | the minor number is the instance modulo 2^20, whatever the major |
| Naming.ProbeByNumber | driver/vi53xx_cndev_core.c:106-188 | a probe changes something if and only if mapping worked and its type is one of the three; it lists a device, under the name of its type, if and only if moreover every later call succeeded visibly; it adds a node if and only if one was made |
| Naming.ListedByNumber | driver/board_info.c:11-25 | in every run every listed device is of type 0xB100 named es5341, 0xB000 named es5311, or 0xB200 named es5342 |
| Naming.FirstNode | driver/vi53xx_cndev_core.c:151 | the first board of type 0xB100 gets the node es5341_0, and the library opens /dev/es5341_0 |
| Naming.CountersCount | driver/board_info.c:27-39 | after any probes a type's counter is the number of its numbered probes modulo 2^32, other types and later failures notwithstanding |
| Naming.DevicesListed | driver/vi53xx_xdma_drv.c:532-542 | the device list is that of the successful probes, newest first, and the nodes are those that device_create really made, oldest first |
| Naming.NodeExactly | driver/vi53xx_cndev_core.c:93-104 | up to 2^20 numbered probes a type, the node of a listed device exists if and only if device_create made it: with an error pointer, or no class, the probe succeeds without a node |
| Naming.NamesRepeatExactly | driver/vi53xx_cndev_core.c:127-151 | two successful probes share a node name if and only if they are of one type and their attempt numbers agree modulo 2^20 |
| Naming.NamesDistinct | driver/vi53xx_cndev_core.c:127-151 | up to 2^20 numbered probes a type, all (type, minor) pairs and node names differ |
| Naming.LookupFirst | lib/vi53xx_xdma.c:206-216 | type and instance of a board are those of its first record, 0 without one |
| Naming.PathHits | lib/vi53xx_xdma.c:958-970 | the path built for one board is the node name of another if and only if they are of one type and the minor of the first, read as hexadecimal, is that of the second |
| Naming.PathsExact | lib/vi53xx_xdma.c:958-970 | the path built for a board is its node if and only if its minor is below 10; two boards never share a path |
| Naming.PathFits | lib/vi53xx_xdma.c:958-967 | the path of every board that the driver lists fits the 32 characters it is printed into |
| Naming.EndToEnd | lib/vi53xx_xdma.c:787-814 | from any probes of distinct boards, up to 2^20 numbered ones a type and 128 listed devices, to the paths: the listing parses, a device has its node exactly if its probe made it, its path is the node name of board m exactly when the types agree and its minor read as hexadecimal is m's, so its own exactly below 10; different boards get different paths |
| Naming.Driver.constructor | driver/board_info.c:151-179 | the type table at start: three types with counters 0, no devices |
| Naming.Driver.TakeInstance | driver/board_info.c:27-39 | the old counter of the type's row, that row incremented and no other; all ones for an unknown type |
| Naming.Driver.MajorIdx | driver/board_info.c:41-53 | the row of the type, all ones for an unknown one |
| Naming.Driver.CreateSysDevice | driver/vi53xx_cndev_core.c:93-104 | fails exactly on NULL; only a node that was made is added, an error pointer counts as success |
| Naming.Driver.CreateCdev | driver/vi53xx_cndev_core.c:106-188 | succeeds exactly when the type is known and no call fails visibly, with or without a device class; an instance is consumed even if a later call fails |
| Naming.Driver.ProbeBoard | driver/vi53xx_xdma_drv.c:503-549 | one probe changes counters, device list and nodes as specified |
| Library.SlotFreeExactly | lib/vi53xx_xdma.c:1081-1085 | a slot below the board count is free exactly when fewer handles are open than boards are known |
| Library.RoomForUnopened | lib/vi53xx_xdma.c:1062-1085 | pigeonhole: while a known board is not open, fewer handles are open than boards are known |
| Library.OpenNeverLosesBoard | lib/vi53xx_xdma.c:1049-1088 | opening a known unopened board returns the descriptor, not the trailing 0; a lookup then finds exactly that handle and all other lookups are unchanged |
| Library.OpenByCases | lib/vi53xx_xdma.c:1049-1088 | every outcome of an open once a check has passed: -19 without a descriptor, the open board's own, -12 without memory, the first free slot, or 0 when none is free; in the last three the online count is set |
| Library.CloseExact | lib/vi53xx_xdma.c:1114-1135 | a close keeps the invariants if and only if the board is open or the online count exceeds the open handles by more than one |
| Library.CloseByCases | lib/vi53xx_xdma.c:1114-1135 | a close in every state: handles, online count, list and flag; the board leaves the idx table and its id the bitmap |
| Library.NoEarlyRelease | lib/vi53xx_xdma.c:901-1135 | over every run, from the start of the program, of checks, opens, get_idx calls and closes of open boards: once a check has passed the list stays, and the online count exceeds the number of open handles whenever one is open |
| Library.CloseRegistryExact | lib/vi53xx_xdma.c:1114-1135 | a close keeps the idx registry intact if and only if the board has an idx or id 0 is free, since it releases the idx unasked |
| Library.RegistrySurvives | lib/vi53xx_xdma.c:889-1135 | the registry invariant holds after every run of checks, opens, closes and get_idx calls whose closes meet that condition |
| Library.RegistryIsMap | lib/vi53xx_xdma.c:889-1135 | over every run of checks, opens, closes and get_idx calls whose closes are sound, the idx table is the injective map that the run's get_idx calls, closes and first checks make |
| Library.ReopenChangesNothing | lib/vi53xx_xdma.c:1062-1067 | opening an open board returns its descriptor and changes nothing |
| Library.CloseUndoesOpen | lib/vi53xx_xdma.c:1049-1135 | closing the board just opened restores the handle table and keeps the board list |
| Library.StrayCloses | lib/vi53xx_xdma.c:1114-1135 | closing a board that is not open n times frees the list if and only if n reaches the online count, the handles staying as they were |
| Library.CheckExact | lib/vi53xx_xdma.c:901-931 | in every state: a repeated check changes nothing; a first one establishes the invariants if and only if memory was there and it found at least one board and no id twice (or found nothing and an old board count of 1 was left), leaves no board listed if and only if it found nothing and no count was left, and from a count of 0 result 0 or less leaves one of the two |
| Library.CheckContract | lib/vi53xx_xdma.c:896-931 | the result is negative if and only if a first check is refused memory; when a first and when a second check keep the promise of the comment above the function |
| Library.NoRetryBeforeClose | lib/vi53xx_xdma.c:908-924 | after a check that found nothing, over every run without a close, every open fails with -ENODEV and every further check returns 0 and finds nothing; a close makes the next check a first one |
| Library.ListedBoardsOpen | lib/vi53xx_xdma.c:958-1088 | driver and library together, open(2) succeeding exactly on the nodes that exist: after probes of distinct boards (at most 2^20 numbered a type, fewer than 128 listed) a first check returns 0 if and only if one board is listed or none has id 0, and listed board n opens if and only if the node of some listed board m was made, the types agree, and n's minor read as hexadecimal is m's |
| Library.Vi53xx.GetBoardType | lib/vi53xx_xdma.c:945-955 | the type of the first record with the id, else 0 |
| Library.Vi53xx.GetBoardInstance | lib/vi53xx_xdma.c:206-216 | the instance of the first record with the id, else 0 |
| Library.Vi53xx.GetBoardName | lib/vi53xx_xdma.c:194-204 | the name of the first record of the type, else none |
| Library.Vi53xx.BoardPath | lib/vi53xx_xdma.c:958-967 | the path built from the three lookups |
| Library.Vi53xx.FindHandle | lib/vi53xx_xdma.c:264-278 | the first slot below the count that holds the board |
| Library.Vi53xx.DeviceOpen | lib/vi53xx_xdma.c:1049-1088 | result and new state of an open, whatever open(2) and malloc return |
| Library.Vi53xx.DeviceClose | lib/vi53xx_xdma.c:1114-1135 | the new state of a close: count, board list, handles, idx table and bitmap |
| Library.Vi53xx.ReleaseDevHandle | lib/vi53xx_xdma.c:1028-1043 | empties every slot of the board and no other |
| Library.Vi53xx.ReleaseBoardInfo | lib/vi53xx_xdma.c:1001-1007 | frees the list and resets the counts and the check flag, nothing else |
| Library.Vi53xx.RequestMem | lib/vi53xx_xdma.c:842-857 | two zeroed blocks, or -1 with what was obtained kept |
| Library.Vi53xx.CheckBoards | lib/vi53xx_xdma.c:901-931 | result, new state and error list of a check on any file with a defined reading |
| Descriptors.ControlWord | driver/libxdma.c:180-194 | the or-ed control word is the sum of its fields |
| Descriptors.DescriptorByNumber | driver/libxdma.c:148-205 | the eight words of every descriptor by number: 0xAD4B with the announced count (at most 15) in bits 8 up, 0xAD4B0013 at the last; the whole length; host and card address by direction; the link, not written at the last |
| Descriptors.WriteLinked | driver/libxdma.c:180-190 | one turn of the loop writes exactly descriptor i, linked to the next |
| Descriptors.WriteFinal | driver/libxdma.c:194-199 | the last descriptor is written with the stop bits and its link left alone |
| Descriptors.DescAlloc | driver/libxdma.c:148-205 | the loop with its running count fills the array with the specified chain, where descriptor i announces min(15, n-2-i) further ones, and records where it is; on a failed allocation nothing changes |
| Engine.FieldsOf | driver/libxdma.c:124-199 | what an engine reads from descriptor i: magic, stop exactly at the last, the planned move with the 28 bits of its length, the address of the next, and an adjacent count that does not pass the end |
| Engine.LengthsExactly | driver/libxdma.c:182-196 | the descriptors ask for exactly the planned moves if and only if every buffer is below 2^28 bytes |
| Engine.PrefetchInside | driver/libxdma.c:169-196 | every block announced by the start register or by a descriptor lies inside the allocated array |
| Engine.ChainMeansPlan | driver/libxdma.c:148-205 | however the engine splits its prefetch, it processes descriptors 0, 1, ... in order, once each, and halts exactly after the last with exactly the listed moves; with too few credits it stalls after exactly as many |
| Transfer.RoundTrip | driver/libxdma.c:124-146 | out and back, at any card address, returns every byte of every buffer when the buffers keep apart on the card and fit the length field, and never touches host memory outside the receiving buffers |
| Transfer.ApartExactly | driver/libxdma.c:186-199 | buffers of at most 0x2000 bytes keep apart on the card wherever the windows wrap; nonempty ones keep apart if and only if every one but the last fits its window or has the window that reaches 4 GiB |
| Transfer.OverlapLoses | driver/libxdma.c:186 | where two buffers meet on the card, a byte of the earlier is lost for some memory contents |
| Transfer.LengthLoses | driver/libxdma.c:182 | a buffer of 2^28 bytes or more that is received elsewhere loses its tail for some memory contents |
| Transfer.RoundTripExactly | driver/libxdma.c:182-199 | for disjoint buffers of any length, at any card address, the round trip works for all memory contents if and only if the buffers keep apart on the card and none is too long for its descriptor (unless it comes back in place) |
| Channels.Separate | driver/libxdma.c:92-119 | the registers of channels 1 to 15 in both directions and the mode register have pairwise different addresses |
| Channels.RegistersByNumber | driver/libxdma.c:41-78 | the control and credit registers after start, stop, poll_init and start_desc, by address and value, everything else as before |
| Channels.ConfigurationByNumber | driver/libxdma.c:80-122 | the start, credit and mode registers after a configuration, by address and value, everything else as before |
| Channels.OthersDoNotMatter | driver/libxdma.c:41-122 | over every sequence of operations a pair's registers are what its own operations alone make them |
| Channels.ModeExact | driver/libxdma.c:93-110 | the mode register has exactly its initial bits and those of the pairs ever configured with more than one descriptor |
| Channels.CreditModeExact | driver/libxdma.c:93-110 | over every run a pair is in credit mode if and only if it was or was ever configured with more than one descriptor |
| Channels.RunBitExact | driver/libxdma.c:41-60 | over every run the Run bit of a pair is set if and only if its last start or stop was a start |
| Channels.LendExact | driver/libxdma.c:62-117 | what the register writes of each operation come to for a pair's credits: only its own stop while running, start_desc and configuration change them |
| Channels.CreditsAddUp | driver/libxdma.c:62-117 | in credit mode, while the engine is stopped and not started, its credits are those it had and all that were granted |
| Channels.StaysProgrammed | driver/libxdma.c:80-122 | the start registers keep a configuration until the pair's next one |
| Channels.ConfiguredChainRuns | driver/libxdma.c:80-122 | an engine started from a pair's registers, after any later operations but a configuration of the pair, runs the compiled chain to its end if and only if the pair is not in credit mode or its credits reach the number of descriptors; else it stalls after as many as it has credits |
| Channels.PlainPairRuns | driver/libxdma.c:80-122 | a pair never configured with more than one descriptor runs its descriptor whatever else happens |
| Channels.SeveralRun | driver/libxdma.c:103-117 | a chain of several descriptors is granted its credits with its configuration and runs to its end at the first start |
| Channels.RestartRuns | driver/libxdma.c:62-122 | whatever the pair did since its configuration for several descriptors, stopping it and xdma_start_desc leave credits with which the chain runs to its end again |
| Channels.BackToOneStalls | driver/libxdma.c:62-122 | a pair in credit mode that was stopped and configured for one descriptor moves nothing |
| Channels.Bar.Start | driver/libxdma.c:41-60 | writes the run value to the pair's control register only |
| Channels.Bar.StartDesc | driver/libxdma.c:62-78 | adds credits for more than one descriptor |
| Channels.Bar.CofgDesc | driver/libxdma.c:80-122 | the mode bit, address, adjacent count and credits of the pair, nothing else |
| Channels.Bar.Stop | driver/libxdma.c:207-218 | writes the stop value to the pair's control register only |
| Channels.Bar.PollInit | driver/libxdma.c:220-239 | sets the polling bits of the pair's control register, keeping the others |
| Channels.Bar.CreateTransfer | driver/libxdma.c:241-245 | compiles the chain and programs its address; after a failed allocation the previous address |
| DeviceMap.XdmaDev.MapSingleBar | driver/vi53xx_xdma_drv.c:130-163 | maps one BAR at full length unless it is absent or the call fails, and returns the length as an int |
| DeviceMap.XdmaDev.UnmapBars | driver/vi53xx_xdma_drv.c:193-206 | unmaps each live mapping of the device once and leaves the others |
| DeviceMap.XdmaDev.MapBars | driver/vi53xx_xdma_drv.c:208-238 | succeeds exactly when every BAR is acceptable, with every present BAR mapped; otherwise no mapping is left |
| DeviceMap.RequestRegions | driver/vi53xx_xdma_drv.c:374-400 | sets one of the two flags and holds the regions exactly on success |
| DeviceMap.DeviceMap | driver/vi53xx_xdma_drv.c:403-452 | for every pattern of failures: a device holding enable, regions and all present BARs exactly when nothing failed, otherwise the ledger as before, except that a device in use stays enabled |
| DeviceMap.SucceedsByNumber | driver/vi53xx_xdma_drv.c:165-190 | the mapping succeeds if and only if block, enable and regions were obtained, each of the six BARs is absent or mapped and below 2 GiB modulo 4 GiB, and at least one DMA mask was accepted |
| DeviceMap.DeviceUmap | driver/vi53xx_xdma_drv.c:240-262 | gives back all mappings, the regions, the enable and the block |
| DeviceMap.MapThenUmap | driver/vi53xx_xdma_drv.c:240-452 | map followed by unmap restores the ledger, but for the enable of a device in use |
| DeviceMap.LengthsThatPass | driver/vi53xx_xdma_drv.c:162-222 | the int is the length in two's complement; which BAR lengths do not turn negative |
| Ledgers.PutHold | driver/vi53xx_xdma_drv.c:52-61 | recording a fresh block or mapping keeps "the ledger is what was there plus what the device holds" |
| Ledgers.DropHold | driver/vi53xx_xdma_drv.c:270-280 | so does giving back what is held and forgetting its pointer |
| DmaLedger.Device.AllocOne | driver/vi53xx_xdma_drv.c:52-61 | a granted buffer is zeroed and held with its size and bus address; a refused one changes nothing, the recorded bus address included |
| DmaLedger.Device.PhysicalAddressInit | driver/vi53xx_xdma_drv.c:47-64 | the buffers before the first refusal, and no others, are held; 0 exactly when all were granted |
| DmaLedger.Device.InfoInit | driver/vi53xx_xdma_drv.c:76-90 | count, sizes and card address of the channel; whatever was allocated is held; after a refusal the bus address is the one before |
| DmaLedger.Device.CreateTransfer | driver/libxdma.c:163-204 | the descriptor block is held with its size and bus address, or nothing is |
| DmaLedger.Device.SetUp | driver/vi53xx_xdma_drv.c:454-463 | one channel's initialisation holds exactly what its two allocations granted, conserves the ledger, programs the pair's registers in order, and leaves the channel's parameters and a descriptor block with the compiled chain; the bus address of what was refused is the one before |
| DmaLedger.Device.ChannelSetUp | driver/vi53xx_xdma_drv.c:465-492 | the same with direction and channel set; nothing but those when the channel is not run |
| DmaLedger.Device.ChannelTurn | driver/vi53xx_xdma_drv.c:481-492 | one turn of the loop: the C2H channel, and the H2C channel only in the first turn; the other configurations stay as they are |
| DmaLedger.Device.ChannelInit | driver/vi53xx_xdma_drv.c:471-495 | for every pattern of allocation failures: each of six blocks is held exactly if it was granted, the ledger afterwards is what was there plus what the device holds, the three pairs are programmed in order and their control registers are 0, the fourth pair's registers are untouched, and each descriptor block holds its channel's chain |
| DmaLedger.TurnsProgramPairs | driver/vi53xx_xdma_drv.c:481-492 | after the loop each of the three pairs is programmed with its own block and stopped, its control register being 0; no pair's credit mode has changed, and the fourth pair's registers are as before |
| DmaLedger.Device.InitialisedPairMoves | driver/vi53xx_xdma_drv.c:20-24 | with a descriptor block, the engine of an initialised pair makes one move of the channel's full size at its card address (0x2000 bytes at 0x80100000, or 0x400000 at 0): with the held buffer, at its held size and bus address, if and only if the buffer was granted, and otherwise at bus address 0; without a descriptor block the pair is programmed with address 0 |
| DmaLedger.Device.InitialisedRoundTrip | driver/vi53xx_xdma_drv.c:20-24 | with both buffers and chains of channel 1, its H2C engine and then its C2H engine copy the one held buffer to the other byte for byte, whatever the memories held, and no other host memory changes |
| DmaLedger.ProbeDevice | driver/vi53xx_xdma_drv.c:471-495 | a new device initialised under any pattern of refusals: grants held, ledger conserved, no pair running, and every pair that has a descriptor block makes its one move |
| DmaLedger.Device.FreeBuffers | driver/vi53xx_xdma_drv.c:264-300 | every held buffer of a channel is freed once, with its size and bus address |
| DmaLedger.Device.FreeDescs | driver/vi53xx_xdma_drv.c:318-338 | a held descriptor block is freed once, with its size and bus address |
| DmaLedger.Device.FreePciBusAddr | driver/vi53xx_xdma_drv.c:302-316 | no buffer of any channel is left |
| DmaLedger.Device.FreeAllDescs | driver/vi53xx_xdma_drv.c:340-351 | no descriptor block is left |
| DmaLedger.Device.FreeResource | driver/vi53xx_xdma_drv.c:353-362 | the ledger is back where it was, with exactly one free for each pointer held; hence a second call frees nothing |
| DmaLedger.Device.InitThenFreeTwice | driver/vi53xx_xdma_drv.c:353-495 | initialise, release, release again under any failures: the starting ledger, and as many frees as allocations |
| DigitalInput.CodeAccuracy | lib/es5341_di_cfg.c:89-96 | the code is the whole part of 2/5 of the whole part of 1024 v; it is monotone, below 1024 exactly below 2.5 V, and less than 1.2 steps under the ideal |
| DigitalInput.RegValueFields | lib/es5341_di_cfg.c:103-113 | for every code, the register is the control value or-ed with what of the code exceeds 10 bits, and the low 10 bits of the code |
| DigitalInput.BankDecodes | lib/es5341_di_cfg.h:13-46 | every control value of the tables is the card's number for that channel and level, in a decoder written out from the list of numbers, and the bank register gives back channel, level and code |
| DigitalInput.CallDecodes | lib/es5341_di_cfg.c:40-87 | after a call the decoder reads its command from the banks if and only if the channel is 1 to 16 and the voltage below 2.5 V |
| DigitalInput.Collides | lib/es5341_di_cfg.c:89-113 | for every call on a channel there is one with another code that leaves the same banks, so no decoder can tell all calls apart |
| DigitalInput.DecodableInjective | lib/es5341_di_cfg.c:5-20 | on channels 1 to 16 below 2.5 V, equal banks mean equal commands |
| DigitalInput.TakenForCommand | lib/es5341_di_cfg.c:89-113 | a call leaves the banks of some command below 2.5 V if and only if its or-ed control field is one of the eight control values; from 2.5 V on it is never the command called |
| DigitalInput.WrongChannel | lib/es5341_di_cfg.c:5-20 | a concrete call that configures another channel |
| DigitalInput.OneCall | lib/es5341_di_cfg.c:40-87 | a call latches once, after the banks are set, and leaves the strobe low |
| DigitalInput.StrobedOnly | lib/es5341_di_cfg.c:40-87 | a channel that is none of 1 to 16 is strobed with the banks as they are |
| DigitalInput.ChannelZeroRepeats | lib/es5341_di_cfg.c:40-87 | after any calls, one for channel 0 makes the card latch the last banks again |
| DigitalInput.RunDecodesExactly | lib/es5341_di_cfg.c:89-126 | over every run the commands decoded from the latches are the commands called if and only if all of them are on channels 1 to 16 and below 2.5 V |
| DigitalInput.OneBankWhileValid | lib/es5341_di_cfg.c:40-87 | over every run, at any voltages, whenever the strobe is high exactly one bank is nonzero, if and only if the run does not begin with channel 0 on a card where that is not so |
| DigitalInput.Board.DinVld | lib/es5341_di_cfg.c:30-33 | a rising strobe latches the banks |
| DigitalInput.Board.CallDiConfig | lib/es5341_di_cfg.c:40-87 | the switch performs exactly the specified writes, strobe included, also for an unknown channel |
| DigitalInput.Board.HandlerDiConfig | lib/es5341_di_cfg.c:120-126 | encodes channel, level and voltage and performs the writes of the call |

## Left out

- Mapping.ExtractValue: requires a text on which the C code has a defined meaning; a field out of
  range, a missing or overlong name, a 129th record or an unterminated rest of the line buffer has none.
- Duplicates.CheckBoardsInfo: requires fewer than 128 boards and room for the error list, because the C
  code otherwise reads or writes past its blocks.
- Library.Vi53xx.CheckBoards: has the same two requirements.
- Descriptors.DescAlloc: requires 1 to 64 descriptors; with none the C code writes outside its block.
- DigitalInput.CodeAccuracy: real numbers stand for `float`; the product by 1024 is exact and the quotient by the
  `double` 2.5 never rounds up to an integer. Negative voltages of a step or more are undefined in C.
- DmaLedger.Device.AllocOne: a refused dma_alloc_coherent is taken to leave its output address alone; page attributes
  (`set_memory_uc`, `set_memory_wb`) are not modelled.
- DmaLedger.Device.InitialisedPairMoves: speaks of descriptor blocks that end within the 64-bit address space.
- DeviceMap.DeviceMap: bus mastering and the text of log messages are not modelled.
- Library.Vi53xx.BoardPath: the text is not cut to the 32 characters of the C buffers, which a name longer than
  14 characters can overflow; the driver's paths fit (`Naming.PathFits`).
- `free_board_info`: it frees the list but keeps the board count and most of the bitmap; `Library.CheckExact`
  covers a check that starts from such a count.
- File descriptors and malloc blocks that an open leaks on its early returns.
- Concurrent id allocation: the bitmap update is a plain read-modify-write; only slot claiming is concurrent.
- Paths of unknown boards: the name printed is NULL, which C leaves undefined; the model records no text.
- Name of the /proc file (the driver creates `mapping`, the library opens `maping`), the other /proc files, ioctl
  plumbing, mmap, cdev and class registration.
- The config lookup of `vi53xx_xdma_start` in driver/vi53xx_xdma_ctrl.c and the `fmap` flags, whose indices disagree.
- Device removal, the LED timer, version strings and matio parameter loading.
- lib/es5341_do_cfg.c and the scope register setters: fixed address tables and straight-line writes.
- Engine details beyond the descriptor format: status write-back, interrupts, the width of the credit counter. What a
  running engine has used of its credits is not tracked, since the fall of the Run bit clears them.
