# SOES slave stack: verified model

A Dafny model of the EtherCAT slave stack in `SSC/` and of the galvo
controller's object dictionary, with proofs of the properties its protocols
depend on. The stack is the Simple Open EtherCAT Slave; the protocols are those
of ETG.1000.6 (AL state machine, section 6.4.1; CoE, section 5.6; EoE, section
5.7; FoE, section 5.8).

The configuration is the one the repository uses: polling, no hooks except the
safe-output callback, little endian. Mailbox size, number of buffers, watchdog
count and list sizes are parameters.

## How the model is built

Code that changes variables step by step is modelled by classes and arrays:
`Mailboxes` (the mailbox buffers), `CoeServer` (SDO transfers and object
lists), `EcatSlave` (AL state machine and cyclic driver), `EoeLink`,
`FoeWriter`, and methods over `array<uint64>` and `array<SMmap>` for process
data. Each such method is proved equal to a function of the old state, and the
properties are proved of those functions, for all inputs, all reachable states
or all runs. Bit slices are the exception: they are specified directly by the
bits of the array.

Register contents, events and received messages are inputs. What is written to
the chip and which application callbacks are called is recorded, in order, in a
log. Storage that dictionary entries point to is a sequence of byte cells.

What the functions compute is stated a second time, independently of them: as
tables of states, error codes and abort codes, as the bytes of messages, and as
positions of bits (`ProcessTypes`, `MappingNumbers`, `AlOutcomes`,
`MailboxReceipt`, `SdoAnswers`, `ObjectAnswers`, `BlockLayout`, `EoeBytes`,
`FoeAnswers`). These tables and the functions are proved to agree for all inputs.

| module | what it holds |
|---|---|
| `Words`, `Bytes` | machine words, their bits, little-endian fields |
| `BitSlice`, `ProcessData`, `ProcessTypes` | slices across 64-bit words; packing and unpacking of process data, and by data type |
| `ObjectDictionary`, `PdoMapping`, `MappingNumbers` | lookup and access rights; flattening the process data mapping, and the list in numbers |
| `Mailbox`, `MailboxReceipt` | mailbox buffers; which messages are taken, kept and posted |
| `MailboxRuns`, `MailboxBackup` | conservation over runs, the backup message |
| `AlControl`, `AlRuns`, `AlOutcomes` | transitions of the AL state machine, their invariants, and where each request leads |
| `CyclicDriver`, `SlaveRuns` | watchdog and cycle; whole runs of the slave |
| `StaleMapping`, `StaleRequests` | what makes the cached mapping stale, and the requests that do it |
| `Slave` | the state machine and the driver on one set of variables |
| `SdoTransfer`, `CoeHandlers`, `CoeServer` | SDO transfers, what each request does, the server itself |
| `SdoAnswers`, `ObjectAnswers` | the answers of the CoE server byte by byte, and every refusal |
| `CoeAnswers`, `CoeWrites`, `SegmentRights` | one answer for each request; what requests may write; segments and access rights |
| `CoeMailbox`, `CoeRounds` | the server as a run of the mailbox buffers; whole runs of rounds |
| `LostBuffers`, `Silence`, `SilencingRun` | requests that lose a buffer; when lost buffers silence the slave, and a run in which they do |
| `ObjectList`, `ListTransfer`, `ListsBetween` | complete object lists; the list as the master reads it; lists between the segments of a transfer |
| `CompleteAccess`, `BlockLayout`, `CompleteAccessRoundTrip` | whole objects as one block; where each entry is in it; there and back |
| `SdoRoundTrip`, `CompleteTransfer` | transfers between two servers, single entries and whole objects |
| `Eoe`, `EoeRuns`, `EoeBytes` | Ethernet fragments, over streams and byte by byte |
| `Foe`, `FoeRuns`, `FoeStreams`, `FoeAnswers` | file sessions, arbitrary streams of file messages, and the answers |
| `Galvo`, `GalvoData`, `GalvoRuns` | the shipped dictionary, its data in the images, and its runs |

## What the code does differently from what one would expect

- The cached process data lists can go stale: an assign object may name any
  object, and one with an entry writable in Safe-Op changes the mapping under
  the cache. `StaleMapping.StaleRun` is a run from the start of the slave to such
  a state, with the request that does it. In general a mapping value in use that
  can be written now is enough (`StaleMapping.WritableValueMakesStale`): by a
  download of the value, if it is not locked (`StaleRequests.DownloadMakesStale`),
  and by a complete download of its object, locked or not, because complete access
  does not look at the lock (`StaleRequests.CompleteDownloadMakesStale`;
  SSC/ecat_slv.c:51-61, SSC/esc_coe.c:973-974). The lists stay correct in
  every run whose exchange starts with the mapping out of reach
  (`SlaveRuns.RunInvariant`), and so in every run of the shipped dictionary
  (`GalvoRuns.GalvoRunInvariant`).
- Download segments are stored where the last transfer pointed, whatever the
  access rights are by then, and even if that transfer was an upload: an accepted
  upload in segments and one download segment change a variable that may only be
  read (`SegmentRights.ReadOnlyChanged`, `SegmentRights.TwoRequestsChangeIt`). A
  call changes a variable that may not be written now if and only if it serves a
  download segment with a buffer for the answer, the transfer points to that
  variable, and the bytes differ (`SegmentRights.UnwritableChangesExactly`;
  SSC/esc_coe.c:1056-1057). Being out of reach takes this into account.
- A complete access to an object of dynamic length, and to no other, is refused
  with the abort code 0x00C02001 instead of 0x06010004, because the code is
  converted from bits to bytes first (`CoeAnswers.DynamicUpload`,
  `CoeAnswers.DynamicDownload`; SSC/esc_coe.c:622-634, 957-963).
- The last segment of a complete download that comes too early leaves one buffer
  claimed until the mailboxes stop (`LostBuffers.RefusedExactly`,
  `LostBuffers.EmptySegmentRefused`, `LostBuffers.ClaimedStays`). One less of
  them than there are sending buffers, but at least one, silence the slave, and
  there are never more (`Silence.NeverMore`). From then on no buffer is ever free
  for an answer, and the only buffer left keeps its message: once that is the
  backup, nothing else is written (`Silence.RefusalsSilence`). With the 3 buffers
  of SSC/options.h:31 two requests do it (`SilencingRun.SilencedByTwoRequests`;
  SSC/esc_coe.c:1066-1079). A slave whose buffers are in order is silent for good
  exactly if at most one sending buffer is left (`Silence.SilentExactly`).
- SDO requests with a command no branch matches, a master's own abort among
  them, are neither answered nor dropped; they hold the inbox until the mailboxes
  stop (`CoeRounds.UnmatchedExactly`, `CoeRounds.HeldForever`;
  SSC/esc_coe.c:1470-1509).
- Object lists and segmented transfers share their counters. A list request, if
  it asks for the objects or their number and finds a buffer, and only then, makes
  the next segment of an upload the last one, of one byte
  (`ListsBetween.ListDisturbsUpload`), and lets a complete download end with bytes
  missing (`ListsBetween.ListDisturbsDownload`; SSC/esc_coe.c:1196-1226).
- A readable bit field that does not start its byte is or-ed to what the block
  holds there, so behind one that cannot be read it may show a bit of an older
  block (`BlockLayout.FieldShown`, `BlockLayout.OlderBitShows`;
  SSC/esc_coe.c:543-556).
- A Safe-Op request in Safe-Op computes the mapping anew. If that fails the slave
  is in Pre-Op with an error, but its inputs are still running
  (`AlOutcomes.StillRuns`, `AlOutcomes.RequestLeadsTo`; SSC/esc.c:1206-1233).
- A repeat request with a posted message but no backup resends buffer 0
  (`MailboxBackup.RepeatAnswer`).
- A full packet that is only partly written to a file, and no other, is answered
  by an error and by an acknowledgement of packet 0 (`FoeRuns.TwoAnswers`,
  `FoeRuns.PartlyWritten`; SSC/esc_foe.c:482-491).

## Model

| member | source | states |
|---|---|---|
| BitSlice.BitsliceGet | SSC/esc_coe.c:1567-1588 | the result holds exactly the bits [offset, offset+length) of the array read as one sequence of bits, for lengths 1 to 64 and slices that straddle two words |
| BitSlice.BitsliceSet | SSC/esc_coe.c:1600-1624 | the array afterwards is the old one with exactly those bits replaced by the low bits of the value |
| BitSlice.GetAfterSet | SSC/esc_coe.c:1567-1624 | reading a slice after writing it gives the value modulo 2 to the length |
| BitSlice.DisjointSetsCommute | SSC/esc_coe.c:1600-1624 | writes to disjoint slices may be made in either order |
| ObjectDictionary.FindObject | SSC/esc_coe.c:83-95 | finds the one object with the index, or reports that there is none; the end marker is found for its own index 0xFFFF |
| ObjectDictionary.FindSubindex | SSC/esc_coe.c:51-76 | finds the one entry with the subindex in a dense or sparse object, or reports that there is none |
| ObjectDictionary.ObjectNoIs | SSC/esc_coe.c:83-95 | in a sorted list the position found for an index is the only one |
| ObjectDictionary.EntryNoIs | SSC/esc_coe.c:51-76 | in a sorted object the position found for a subindex is the only one |
| PdoMapping.ResolveLine | SSC/esc_coe.c:163-207 | a mapping value yields a list line exactly when its object and entry exist or it is padding |
| PdoMapping.MapValue | SSC/esc_coe.c:158-222 | one value extends the flattened list at the sum of the lengths before it, or fails exactly when the list is full or the entry is missing |
| PdoMapping.MapObject | SSC/esc_coe.c:153-223 | all values of a mapping object extend the list, or it fails exactly when they are not mappable |
| PdoMapping.MapIndexed | SSC/esc_coe.c:147-224 | an assigned index that names no object adds nothing |
| PdoMapping.MapAssigned | SSC/esc_coe.c:142-226 | the outer loop lays out the concatenation of all assigned mappings, or fails exactly when it cannot be mapped |
| PdoMapping.SizeOfPDO | SSC/esc_coe.c:118-238 | length, line count and lines are those of the pure flattening; the count is -1 exactly when the list overflows or an entry is missing |
| PdoMapping.SameLayout | SSC/esc_coe.c:118-238 | the flattening determines the list completely |
| PdoMapping.OffsetsGrow | SSC/esc_coe.c:219-222 | each line ends before every later one starts |
| MappingNumbers.FetchedIs | SSC/esc_coe.c:23-25 | one, two or four bytes of the variable, lowest first, or the low bits of the constant |
| MappingNumbers.SizeIs | SSC/esc_coe.c:118-238 | in numbers: the length is that of the sum of the low bytes of all values; the count is -1 exactly when there are more values than lines or one names no entry; otherwise line k is the entry whose index and subindex are in value k, behind the bits of the values before it |
| MappingNumbers.NoAssignObject | SSC/esc_coe.c:134-138 | without the assign object the length is 0 and the lines stay |
| MappingNumbers.FlattenedLengthIs | SSC/esc_coe.c:142-226 | there are as many values as the assigned objects count together |
| MappingNumbers.ValueAt | SSC/esc_coe.c:142-226 | value c of the object assigned by subindex s is behind all values assigned before it |
| ProcessData.SetValue | SSC/esc_coe.c:1692-1735 | exactly the bytes of the data type are replaced by the value's low bits; unsupported types change nothing |
| ProcessData.PackLine | SSC/esc_coe.c:1797-1824 | one line puts the bits of its variable into its slot, zeroes beyond the data type, and nothing else changes |
| ProcessData.PdoPack | SSC/esc_coe.c:1790-1825 | every bit of the image is decided by the last line that covers it, and is unchanged if none does |
| ProcessData.UnpackLine | SSC/esc_coe.c:1845-1869 | one line moves its slice to its variable and clears the rest of the bytes of its data type |
| ProcessData.PdoUnpack | SSC/esc_coe.c:1837-1871 | every bit of storage is decided by the last line that writes it, and is unchanged if none does |
| ProcessData.PackThenUnpack | SSC/esc_coe.c:1790-1871 | packing and unpacking restores the mapped bits of every mapped variable and leaves all other variables and all uncovered bits alone |
| ProcessData.PackThenUnpackValue | SSC/esc_coe.c:1634-1871 | the value read back is the packed value modulo 2 to the bit length |
| ProcessData.UnpackThenPack | SSC/esc_coe.c:1790-1871 | unpacking and packing restores every mapped bit its data type can hold |
| ProcessData.LayoutIsDisjoint | SSC/esc_coe.c:118-238 | prefix-sum offsets give disjoint slots inside the total length |
| ProcessData.LayoutFits | SSC/esc_coe.c:118-238 | a list whose total length fits the image never reaches outside it |
| ProcessData.MappedRoundTrip | SSC/esc_coe.c:118-238 | the list built from a well-formed mapping makes packing and unpacking inverse modulo 2 to the mapped length |
| ProcessData.LongSlotPlace | SSC/esc_coe.c:1802-1808 | an entry longer than 64 bits is moved at its own place if and only if it starts and ends on a byte boundary |
| ProcessTypes.StandardMoves | SSC/esc_coe.c:1634-1735 | entries as long as the standard makes their data type, or longer ones on byte boundaries, are moved whole, and apart from each other if their positions are |
| ProcessTypes.VariableIsPacked | SSC/esc_coe.c:1634-1825 | for such entries every bit of every mapped variable is in the packed image, at the line's offset |
| ProcessTypes.VariableIsUnpacked | SSC/esc_coe.c:1692-1871 | every bit of every mapped variable is the image's after unpacking, the rest of its last byte is zero, and what lies behind it stays |
| GalvoData.InputsPacked | SSC/galvo_od.c:71-84 | bit b of variable k of 0x6000 is bit 32 * k - 16 + b of the packed image, or bit b for the first variable |
| GalvoData.StartXPacked | SSC/galvo_od.c:75 | as a number: Start X, lowest byte first, is the 32 bits behind the status word in the first word of the image |
| GalvoData.InputsUnpacked | SSC/galvo_od.c:71-84 | unpacking puts it back, and nothing else |
| GalvoData.OutputsPacked | SSC/galvo_od.c:86-96 | the same for the variables of 0x7000, the last of which is short, too |
| GalvoData.OutputsUnpacked | SSC/galvo_od.c:86-96 | after unpacking, each variable of 0x7000 holds its bits of the image, and nothing else has changed |
| Mailbox.Mailboxes.constructor | SSC/esc.c:404-427 | buffers start idle, nothing posted, no backup |
| Mailbox.Mailboxes.ClaimBuffer | SSC/esc.c:495-520 | the highest idle buffer is claimed, gets the next message counter and is counted; with none, nothing changes |
| Mailbox.Mailboxes.OutreqBuffer | SSC/esc.c:526-534 | the highest queued buffer, or 0 |
| Mailbox.Mailboxes.MbxError | SSC/esc.c:541-555 | an error message is queued if there is a buffer; the inbox stays |
| Mailbox.Mailboxes.WriteMbx | SSC/esc.c:459-477 | the buffer goes to the outgoing mailbox, no more data bytes than it holds, and the mailbox is then not free |
| Mailbox.Mailboxes.ReadMbx | SSC/esc.c:433-452 | buffer 0, claimed for receiving, holds the message: as many data bytes as announced but no more than the mailbox holds, and behind them what was there |
| Mailbox.Mailboxes.TakeMessage | SSC/esc.c:657-676 | bad headers are answered and dropped, repeated counters are dropped |
| Mailbox.Mailboxes.MessageFetched | SSC/esc.c:581-606 | the fetched message replaces the backup |
| Mailbox.Mailboxes.RepeatRequest | SSC/esc.c:607-634 | the backup is written again, and a posted message is marked to be sent again |
| Mailbox.Mailboxes.PostNext | SSC/esc.c:636-655 | the highest queued buffer is posted when the outgoing mailbox is free |
| Mailbox.Mailboxes.MbxProcess | SSC/esc.c:563-679 | one call does what the first matching case says, on all mailbox variables; the result says whether there is work |
| Mailbox.Mailboxes.XoeProcess | SSC/esc.c:683-704 | a message no protocol has taken is answered with the right error and dropped |
| Mailbox.Mailboxes.StopMbx | SSC/esc.c:404-427 | all buffers are idle and all mailbox variables cleared |
| Mailbox.Mailboxes.StartMbx | SSC/esc.c:356-362 | the repeat toggle is synchronised and the mailboxes run |
| MailboxReceipt.TakenExactly | SSC/esc.c:657-676 | a message that is taken stays in buffer 0 if and only if its length is not 0 and fits, and its counter is 0 or differs from that of the message taken before; its counter is remembered either way |
| MailboxReceipt.NotTaken | SSC/esc.c:563-655 | a call that takes no message leaves buffer 0 and the remembered counter |
| MailboxReceipt.SentExactly | SSC/esc.c:495-520 | an answer goes into the highest idle buffer, with counters running from 1 to 7, and is dropped exactly if there is none |
| MailboxReceipt.PostedExactly | SSC/esc.c:636-655 | the highest queued buffer is posted when nothing was fetched, none is to be repeated and the outgoing mailbox is free; all that changes |
| MailboxReceipt.NothingPosted | SSC/esc.c:563-679 | otherwise nothing goes out |
| MailboxReceipt.FetchedExactly | SSC/esc.c:581-606 | the fetched message is the backup, the old backup idle, and a message to be sent again is written; all that changes |
| MailboxReceipt.RepeatedExactly | SSC/esc.c:607-634 | a repeat request is answered by the backup, or buffer 0, and acknowledged; with neither backup nor posted message it stays open |
| MailboxReceipt.RejectedExactly | SSC/esc.c:683-704 | a message no protocol has taken is dropped, and answered byte by byte by error 5 for a missing type or length, 2 otherwise |
| MailboxReceipt.NothingLeft | SSC/ecat_slv.c:314-325 | after a round that had work, no message is left that nobody has taken on |
| MailboxReceipt.RepeatIgnored | SSC/esc.c:669-674 | a round that takes the message before it once more leaves storage, block and transfer as they were, and writes nothing |
| MailboxReceipt.CounterIs | SSC/esc.c:669-674 | over every run of rounds and other deeds, the remembered counter is that of the message taken last since the last stop |
| MailboxReceipt.NoneServedTwice | SSC/ecat_slv.c:303-325 | so in no run from stopped mailboxes is a message served again that has the counter of the message before it |
| MailboxRuns.StepSafe | SSC/esc.c:404-704 | every step keeps: exact queue counter, buffer 0 only idle or receiving, backup index naming the only backup, posted index naming a posted buffer |
| MailboxRuns.RunSafe | SSC/esc.c:404-704 | the same over every run of steps in any order with any register contents; and no buffer is lost if a posted mailbox stays full until its event |
| MailboxRuns.Conservation | SSC/esc.c:495-679 | idle + queued or claimed + posted + backup is the number of sending buffers, and posted and backup are unique |
| MailboxBackup.ClaimIsUnused | SSC/esc.c:495-520 | a claimed buffer was neither posted, nor to be sent again, nor the backup; there is none exactly when no sending buffer is idle |
| MailboxBackup.StepKeeps | SSC/esc.c:404-704 | posted and backup buffers keep their content at every step, and a backup exists from the first fetched message until a stop |
| MailboxBackup.RepeatAnswer | SSC/esc.c:607-634 | exact answer to a repeat request: the last fetched message if there is one, buffer 0 if only a posted message exists, nothing otherwise |
| MailboxBackup.RunKeeps | SSC/esc.c:404-704 | the same over every run, and only a stop takes a backup away |
| MailboxBackup.RunKeepsFromStart | SSC/esc.c:404-704 | so in every run that begins with stopped mailboxes |
| Slave.EcatSlave.AlError | SSC/esc.c:25-31 | stores and writes the AL status code |
| Slave.EcatSlave.AlStatus | SSC/esc.c:38-44 | stores and writes the AL status |
| Slave.EcatSlave.AlStatusGotoError | SSC/esc.c:54-86 | outputs are stopped if live before the error and status are written; a status with the Op bit is ignored |
| Slave.EcatSlave.CheckMbx | SSC/esc.c:306-330 | registers agree with the active settings, or both mailbox SyncManagers are disabled and the test result names the failing one |
| Slave.EcatSlave.StartMbx | SSC/esc.c:340-399 | mailboxes run in step with the repeat bit if the registers fit, otherwise the right error code is reported and they do not run |
| Slave.EcatSlave.StopMbx | SSC/esc.c:404-427 | the mailboxes are stopped, and a transfer in progress is forgotten |
| Slave.EcatSlave.CheckSm23 | SSC/esc.c:712-795 | accepts exactly settings, lengths and activations that agree with the mapping, and no overlap of SyncManagers 2 and 3 |
| Slave.EcatSlave.StartInput | SSC/esc.c:804-837 | inputs run if the check passes, otherwise both SyncManagers are disabled and the error names the failing one |
| Slave.EcatSlave.StopInput | SSC/esc.c:883-897 | input and output flags are cleared and both SyncManagers disabled |
| Slave.EcatSlave.StartOutput | SSC/esc.c:907-919 | the output flag is set |
| Slave.EcatSlave.StopOutput | SSC/esc.c:926-931 | the output flag is cleared, SyncManager 2 disabled, then outputs are made safe |
| Slave.EcatSlave.EnterSafeOp | SSC/esc.c:1206-1233 | both mappings are computed anew from the current dictionary before the check; each failure has its own error |
| Slave.EcatSlave.ChangeState | SSC/esc.c:1140-1302 | every pair of state and request takes its transition, with the mailboxes and the transfer; the mapping is read by the two that compute it |
| Slave.EcatSlave.Report | SSC/esc.c:1310-1321 | a stale error is cleared, an identification value is loaded when asked for, then the status is written |
| Slave.EcatSlave.EscState | SSC/esc.c:1095-1326 | a request is read, ignored while an error is unconfirmed, or answered; exactly which requests clear the mailboxes and forget the transfer, which start the mailboxes, and that no other touches them |
| Slave.EcatSlave.SmActEvent | SSC/esc.c:937-1021 | a changed SyncManager leads down to Init or Pre-Operational with its error, or nowhere; the mailboxes and the transfer are cleared exactly if the mailboxes are lost |
| Slave.EcatSlave.Init | SSC/ecat_slv.c:380-385 | the slave starts in Init with mailboxes, inputs and outputs stopped |
| AlRuns.ConsistentInitially | SSC/ecat_slv.c:380-385 | the invariant of the state machine holds after initialisation |
| AlRuns.StateRequestConsistent | SSC/esc.c:1095-1326 | every request keeps: outputs live exactly in Op, no error bit in Op, mailboxes running exactly outside Init, no overlap of three output buffers with the inputs |
| AlRuns.SmChangedConsistent | SSC/esc.c:937-1021 | a changed SyncManager keeps the same |
| AlRuns.EnteringIsChecked | SSC/esc.c:1206-1233 | process data exchange starts only from Pre-Op by a Safe-Op request, with fresh mappings that the registers agree with |
| AlRuns.ExchangingKeepsMaps | SSC/esc.c:1095-1326 | during the exchange the mappings change only by being computed anew |
| AlRuns.MapsUnread | SSC/esc.c:1095-1326 | every request but those for Safe-Op from Pre-Op or Safe-Op gives the same result whatever the dictionary maps |
| AlRuns.SmChangedNeverEnters | SSC/esc.c:937-1021 | a changed SyncManager never starts the exchange and never touches the mappings |
| AlRuns.RequestLeavesOpSafely | SSC/esc.c:1170-1302 | a request that leaves Op calls the safe-output hook before it writes the status, and no other request in Op calls it |
| AlRuns.SmChangeLeavesOpSafely | SSC/esc.c:968-1008 | the same for a changed SyncManager |
| AlRuns.WatchdogLeavesOpSafely | SSC/esc.c:54-86 | the same for the watchdog, with the exact order of actions |
| AlOutcomes.RequestLeadsTo | SSC/esc.c:1095-1326 | every request that is not ignored, for every pair of state and request, as a table of register values: a granted one leads to the requested state without error, any other to a state at or below the one left with the error bit and its error code; with the flags of what runs afterwards, and everything written and called on the way, in order |
| AlOutcomes.RequestIgnored | SSC/esc.c:1099-1126 | a request without event, or while an error is unconfirmed, changes nothing |
| AlOutcomes.SmChangeLeadsTo | SSC/esc.c:937-1021 | a changed SyncManager leads to Init with error 0x16 if the mailboxes are lost, to Pre-Operational with 0x1D or 0x1E if process data no longer fit, and nowhere otherwise |
| AlOutcomes.ChecksAre | SSC/esc.c:306-330 | the checks of the SyncManagers: the test result names the one that does not fit, and lost mailboxes are disabled |
| AlOutcomes.ErrorLeadsTo | SSC/esc.c:54-86 | outputs stop first if live, then error and status; a status with the Op bit is ignored |
| AlOutcomes.InitialState | SSC/ecat_slv.c:380-385 | status, flags and actions of the initialisation |
| Slave.EcatSlave.WatchdogPhase | SSC/ecat_slv.c:196-215 | count down, drop out of Op, or reload |
| Slave.EcatSlave.OutputPhase | SSC/ecat_slv.c:164-232 | the first bytes of the image, as many as the SyncManager is long, are read, and reach the variables exactly while outputs are live, through the cached list |
| Slave.EcatSlave.InputPhase | SSC/ecat_slv.c:146-253 | inputs are fetched and packed through the cached list while the application runs, and SyncManager 3 shows the first bytes of the image, as many as it is long |
| Slave.EcatSlave.DigProcess | SSC/ecat_slv.c:194-254 | the phases in order, on state, watchdog, storage and image |
| CyclicDriver.WatchdogCounts | SSC/ecat_slv.c:194-232 | the counter is always the limit minus the watchdog phases since the last reload, not below 0 |
| CyclicDriver.WatchdogExact | SSC/ecat_slv.c:194-215 | the slave drops to Safe-Op with error if and only if outputs are live, output data exist, and the limit has passed |
| CyclicDriver.DigConsistent | SSC/ecat_slv.c:194-254 | a cycle keeps the invariant of the state machine and both lists |
| CyclicDriver.OutputsOnlyInOp | SSC/ecat_slv.c:217-226 | outputs are applied exactly by a cycle with an event that starts and ends in Op |
| CyclicDriver.CycleIs | SSC/ecat_slv.c:194-254 | a whole cycle in numbers: watchdog counter, status, error, flags, and what is done in which order, for each choice of phases |
| CyclicDriver.RecomputeFrame | SSC/esc_coe.c:118-238 | the mapping depends on the variables of the assign object and of the assigned objects only |
| SlaveRuns.UnpackedKeeps | SSC/esc_coe.c:1837-1871 | unpacking changes only variables that lines point to |
| SlaveRuns.StepKeeps | SSC/ecat_slv.c:303-345 | requests, changed SyncManagers, cycles, and every call of the CoE server with any mailbox contents, segments included, keep the cached lists equal to what sizeOfPDO would compute now |
| SlaveRuns.RunInvariant | SSC/esc.c:1206-1233 | in every run in which the exchange starts with a protected mapping and no transfer pointing to it, cached lengths and lists agree with the current dictionary throughout Safe-Op and Op |
| SlaveRuns.RunConsistent | SSC/ecat_slv.c:303-345 | outputs live exactly in Op, mailboxes running exactly outside Init, over every run, with no assumption about the mapping |
| SlaveRuns.RunLeavesAndEnters | SSC/ecat_slv.c:303-345 | over every run, Op is left safely and the exchange is entered only by a checked request |
| SlaveRuns.RunWatchdog | SSC/ecat_slv.c:194-232 | over every run the watchdog counter is what is left since the last reload |
| SlaveRuns.RunWatchdogDrops | SSC/ecat_slv.c:194-232 | over every run a cycle drops out of Op if and only if outputs are live, output data exist and the limit has passed since the last reload |
| StaleMapping.RequestServed | SSC/esc_coe.c:777-864 | the CoE server stores this download request in Safe-Op |
| StaleMapping.StaleRun | SSC/esc_coe.c:800-864 | without protection it fails: a run from the start of the slave, two accepted requests and that download, ends in Safe-Op with lists that no longer agree with the dictionary |
| StaleMapping.ResizedDiffers | SSC/esc_coe.c:118-238 | a change of one mapped length in use by 8 bits changes the computed mapping, however often the value is used |
| StaleMapping.WritableValueMakesStale | SSC/esc_coe.c:118-238 | so whenever a cell that holds a mapping value in use can be written in the current state, a change of it alone that keeps all sizes makes the lists stale |
| StaleRequests.ValueDownloaded | SSC/esc_coe.c:777-888 | through the server: a download of exact length to an entry that may be written and is not locked puts its bytes into the variable |
| StaleRequests.DownloadMakesStale | SSC/ecat_slv.c:43-61 | so a download of such a mapping value, 8 bits longer, leaves lists that no longer agree with the dictionary |
| StaleRequests.ObjectDownload | SSC/esc_coe.c:924-1037 | through the server: a complete download of full length in one message spreads its bytes over the entries |
| StaleRequests.CompleteDownloadMakesStale | SSC/esc_coe.c:971-1015 | so does a complete download of the object that shows the changed value, locked or not |
| Galvo.IsWellFormed | SSC/galvo_od.c:98-110 | the shipped dictionary is sorted and complete |
| Galvo.RxMapping | SSC/galvo_od.c:32-42 | outputs are 7 entries in 24 bytes, each as long as it is mapped |
| Galvo.TxMapping | SSC/galvo_od.c:44-57 | inputs are 10 entries in 38 bytes, each as long as it is mapped |
| Galvo.AlwaysProtected | SSC/galvo_od.c:59-110 | with every assignment the master can make and the code can read, nothing during the exchange can reach the mapping |
| Galvo.DefaultSizesFit | SSC/galvo_od.c:59-110 | three output buffers fit in front of the inputs, and both images hold the data |
| GalvoRuns.GalvoRunInvariant | SSC/galvo_od.c:59-110 | in every run of the shipped dictionary, whatever is assigned, downloaded and requested, cached lengths and lists agree with the current dictionary throughout Safe-Op and Op |
| SdoTransfer.SegmentShape | SSC/esc_coe.c:711-754 | an upload segment carries at least one byte, fits the mailbox, is flagged last exactly when it is, and the bytes left decrease |
| SdoTransfer.SegmentReturns | SSC/esc_coe.c:711-754 | an upload segment taken as a download segment yields the bytes it was made of |
| SdoTransfer.SegmentsRebuild | SSC/esc_coe.c:1039-1110 | all segments of an upload, sent back, rebuild the source bytes and end the transfer |
| SdoTransfer.InitiateReturns | SSC/esc_coe.c:336-420 | the initiate response sent back announces the exact size and carries its first part, expedited, normal or segmented |
| SdoTransfer.UploadThenDownload | SSC/esc_coe.c:336-420 | for every content of at least one bit and every mailbox of at least 11 data bytes, an upload sent back as a download rebuilds the same bytes and no others |
| CoeServer.CoeServer.Upload | SSC/esc_coe.c:299-445 | the upload request is answered by data, or by the abort for a missing object, subindex or access right |
| CoeServer.CoeServer.UploadSegment | SSC/esc_coe.c:711-771 | the next segment is sent and the transfer moves on |
| CoeServer.CoeServer.Download | SSC/esc_coe.c:777-918 | the data are stored and acknowledged, or refused with the abort for what is wrong; short strings are padded |
| CoeServer.CoeServer.DownloadSegment | SSC/esc_coe.c:1039-1116 | the segment is stored where the transfer points; the last one of a complete access is spread over the entries or refused |
| CoeServer.CoeServer.UploadAll | SSC/esc_coe.c:594-706 | complete access upload, with the abort code of an object of dynamic length sent after a conversion from bits to bytes, as the code does |
| CoeServer.CoeServer.DownloadAll | SSC/esc_coe.c:924-1037 | complete access download, spread at once or collected for segments |
| CoeServer.CoeServer.GetOdList | SSC/esc_coe.c:1152-1241 | the number of objects, or the first fragment of their list, or an error for other list types |
| CoeServer.CoeServer.GetOdListCont | SSC/esc_coe.c:1245-1286 | the next fragment of the list |
| CoeServer.CoeServer.ClearTransfer | SSC/esc.c:420-426 | a stop of the mailboxes forgets the transfer |
| CoeServer.CoeServer.Process | SSC/esc_coe.c:1435-1555 | each request reaches its handler by service, command, length and transfer state |
| CoeServer.CoeServer.MailboxRound | SSC/ecat_slv.c:314-325 | buffers first, then the CoE server, then what nobody has taken |
| SdoAnswers.DownloadAnswered | SSC/esc_coe.c:777-888 | every download to an existing entry, with requests and answers as bytes: a granted one is acknowledged and stored byte by byte, a short string padded with zeroes; a refused one is answered by the abort code of the table (read only, state, length, mapping in use) and stores nothing but that padding |
| SdoAnswers.DownloadRefusedExactly | SSC/esc_coe.c:777-888 | an abort code is the answer if and only if the table says so |
| SdoAnswers.LengthRefusedExactly | SSC/esc_coe.c:816-838 | 0x06070010 is the answer, and nothing stored, if and only if the entry may be written, the announced size is not its own, and its data type is none of those of any length |
| SdoAnswers.DownloadFields | SSC/esc_coe.c:804-864 | size, position and number of the bytes a download carries, from its bytes |
| SdoAnswers.DownloadOfNothing | SSC/esc_coe.c:793-909 | a missing object or subindex is answered by its own abort code |
| SdoAnswers.UploadAnswered | SSC/esc_coe.c:315-432 | every upload of an existing entry is answered by its bytes, as many as fit, with the command for their number, or by the abort code of a write-only entry; and the transfer afterwards |
| SdoAnswers.UploadOfNothing | SSC/esc_coe.c:434-442 | the same abort codes for uploads |
| SdoAnswers.UploadSegmentAnswered | SSC/esc_coe.c:711-775 | every segment: toggle, flags, number of padding bytes, and the next bytes of the source |
| ObjectAnswers.AccessRefused | SSC/esc_coe.c:448-473 | complete access from a subindex above 1, to a missing object or a missing subindex has its abort code |
| ObjectAnswers.UploadAllAnswered | SSC/esc_coe.c:619-705 | a complete upload is answered by the block, as much as fits, or by the abort code of the table of sizes |
| ObjectAnswers.DownloadAllRefused | SSC/esc_coe.c:954-988 | a complete download that is too long, or too long to collect, has its abort code and stores nothing |
| ObjectAnswers.DownloadAllGranted | SSC/esc_coe.c:971-1036 | any other is acknowledged, and collected in the block or spread over the entries |
| ObjectAnswers.SegmentAcknowledged | SSC/esc_coe.c:1056-1110 | a segment not refused is acknowledged with its toggle, and moves the transfer by the bytes it carries, or ends it |
| ObjectAnswers.SegmentStores | SSC/esc_coe.c:1056-1090 | its bytes go where the transfer points, refused or not; one that completes a complete access is spread over the object |
| ObjectAnswers.SegmentRefused | SSC/esc_coe.c:1066-1079 | a refused one is answered in a second buffer, the first stays claimed and the transfer open |
| ObjectAnswers.Dispatched | SSC/esc_coe.c:1465-1554 | which handler a request reaches, as a table of service and command bytes |
| ObjectAnswers.CallIs | SSC/esc_coe.c:1435-1465 | what one call does with a list being sent, a request held, a message that arrived, and one that is too short |
| ObjectAnswers.WithoutBuffer | SSC/esc_coe.c:1435-1555 | without a free buffer lists and descriptions wait, and everything else is dropped unanswered |
| ObjectAnswers.OthersAnswered | SSC/esc_coe.c:1519-1550 | what is answered to unknown services and commands |
| ObjectAnswers.ListAnswered | SSC/esc_coe.c:1152-1193 | the number of objects, or the error for another list type, as bytes |
| CoeAnswers.OneResponse | SSC/esc_coe.c:1465-1554 | with a free buffer every recognised request queues exactly one answer and frees the inbox; the exceptions are listed exactly |
| CoeAnswers.ShortMessage | SSC/esc_coe.c:1445-1458 | a CoE message shorter than 8 bytes is answered twice |
| CoeAnswers.ListContinues | SSC/esc_coe.c:1245-1286 | a continued list sends the next indexes, fits the mailbox, and frees the inbox exactly with the last fragment |
| ListsBetween.ListDisturbs | SSC/esc_coe.c:1152-1241 | a list request overwrites the counters of a transfer if and only if it asks for the objects or their number and a buffer is free; nothing else of the transfer or the storage changes |
| ListsBetween.ListDisturbsUpload | SSC/esc_coe.c:1194-1226 | then the next segment of an upload is the last one and carries one byte; otherwise the transfer is as it was |
| ListsBetween.ListDisturbsDownload | SSC/esc_coe.c:1064-1097 | then a collected download ends with any segment flagged last that is not empty, however many bytes are missing, and as many bytes are spread as the list has fragments |
| CoeAnswers.DynamicUpload | SSC/esc_coe.c:622-634 | a complete upload is refused with the converted abort code 0x00C02001 if and only if the object is of dynamic length |
| CoeAnswers.DynamicDownload | SSC/esc_coe.c:957-963 | so is a complete download |
| CoeAnswers.UploadServed | SSC/esc_coe.c:327-432 | a readable entry is answered by the initiate response for its content |
| CoeAnswers.DownloadServed | SSC/esc_coe.c:802-888 | an allowed download of exact length stores what it carries and nothing else |
| CoeAnswers.DownloadSegmentServed | SSC/esc_coe.c:1056-1110 | a segment is stored behind the ones before it |
| CoeWrites.DownloadChangesWritable | SSC/esc_coe.c:802-864 | a download changes only variables of entries writable in the current state, and no sizes |
| CoeWrites.DownloadAllChangesWritable | SSC/esc_coe.c:531-535 | so does a complete download |
| CoeWrites.SegmentReach | SSC/esc_coe.c:1056-1100 | a segment writes where the transfer points whatever the access rights, and spreads a block by the rights of now |
| CoeWrites.ProcessReach | SSC/esc_coe.c:1435-1555 | any call of the CoE server changes only variables writable in the current state and the one the transfer points to |
| CoeWrites.ProcessPoints | SSC/esc_coe.c:1435-1555 | any call leaves the transfer pointing where it did, or to a variable of more than 4 bytes that may be written now, or read now and not sent in one message |
| SegmentRights.UnwritableChangesExactly | SSC/esc_coe.c:1039-1116 | a call changes a variable not writable now if and only if it serves a download segment with a free buffer, the transfer points to the variable, and the bytes differ |
| SegmentRights.ReadOnlyChanged | SSC/esc_coe.c:405-416 | an accepted upload of a readable entry that does not fit one message, and then a download segment, put the segment into the entry's variable, whatever may be written |
| SegmentRights.TwoRequestsChangeIt | SSC/esc_coe.c:1056-1057 | a dictionary and two requests with which a variable that can never be written changes, in every state with mailboxes |
| CoeMailbox.CoeProcessServes | SSC/esc_coe.c:1435-1555 | whatever the request, a call of the CoE server is a run of claims, answers and releases of the buffers |
| CoeMailbox.CoeProcessInOrder | SSC/esc_coe.c:1435-1555 | so it keeps the mailbox invariant, leaves the posted and the backup buffer as they were, and loses no buffer |
| CoeRounds.ServerRunIsRun | SSC/ecat_slv.c:303-325 | every run of rounds, with anything else between them, is a run of the buffers |
| CoeRounds.ServerRunKeeps | SSC/ecat_slv.c:303-325 | from the start of the mailboxes on, in every run of rounds and other deeds, the posted buffer holds the message posted last and the backup the message fetched last |
| CoeRounds.FetchedStays | SSC/ecat_slv.c:303-325 | over such a run without a stop there is a backup from the first fetched message on |
| CoeRounds.RepeatServed | SSC/esc.c:607-634 | so a round that finds a repeat request sends the message fetched last, if there is one |
| CoeRounds.UnmatchedExactly | SSC/esc_coe.c:1470-1509 | which SDO requests no branch matches, the abort of a master among them |
| CoeRounds.UnmatchedIsHeld | SSC/esc_coe.c:1445-1509 | such a request is not answered, and holds the inbox |
| CoeRounds.HeldForever | SSC/esc_coe.c:1470-1509 | in every run without a stop the same message stays in the inbox |
| LostBuffers.RefusedExactly | SSC/esc_coe.c:1059-1079 | a segment of a collected download is refused if and only if it is flagged last and bytes are missing |
| LostBuffers.EmptySegmentRefused | SSC/esc_coe.c:924-1079 | after the start of any download that is collected, an empty last segment is refused |
| LostBuffers.RefusalReachable | SSC/esc_coe.c:924-1079 | a dictionary and a request with which this happens |
| LostBuffers.RefusalLoses | SSC/esc_coe.c:1066-1079 | each refusal leaves one buffer more claimed |
| LostBuffers.ClaimedStays | SSC/esc.c:404-704 | a claimed buffer stays claimed at every step but a stop |
| LostBuffers.RefusalsAreLost | SSC/esc_coe.c:1039-1116 | over every run without a stop at least as many buffers are lost as segments were refused |
| Silence.BusyStays | SSC/esc.c:563-655 | as long as the mailboxes run, some sending buffer is queued, posted or the backup once one is |
| Silence.LeftStays | SSC/esc.c:404-704 | if all sending buffers but one are lost and that one is in use, so it stays at every step but a stop, with the same message and no free buffer |
| Silence.SettledStep | SSC/esc.c:563-704 | once that message is the backup, a step writes it if it finds a repeat request, and writes nothing otherwise |
| Silence.NeverMore | SSC/esc_coe.c:1039-1116 | over every run without a stop no more segments are refused than silence the slave: one less than there are sending buffers, but at least one |
| Silence.RefusalsSilence | SSC/esc_coe.c:1039-1116 | after so many refusals no buffer is ever free in any run without a stop, and once the message left is the backup only copies of it are written |
| Silence.SilentExactly | SSC/esc.c:495-655 | running buffers in order stay without a free one, whatever the master does but stop them, if and only if at most one sending buffer is not lost, and that one is in use |
| SilencingRun.SilencedByTwoRequests | SSC/esc_coe.c:924-1079 | a run from stopped mailboxes with three buffers: the start of a complete download, its response fetched, one empty last segment, and the backup is all that is left |
| CoeMailbox.ListingKept | SSC/esc_coe.c:1209-1286 | while a list is sent its counters stay valid |
| ObjectList.FragmentCount | SSC/esc_coe.c:1147-1167 | the number of fragments is the smallest that holds all indexes |
| ObjectList.NextBounds | SSC/esc_coe.c:1260-1273 | a continued fragment starts where the one before ended, is not empty and fits |
| ObjectList.AllObjectsListed | SSC/esc_coe.c:1152-1286 | first and continued fragments list every object once and in order |
| ListTransfer.ListBegins | SSC/esc_coe.c:1172-1239 | the first fragment the server queues carries the first indexes and fits the mailbox |
| ListTransfer.WholeListArrives | SSC/esc_coe.c:1152-1286 | the fragments a server queues, read one after another, are the index of every object once and in order, and the last one frees the inbox |
| SdoRoundTrip.Start | SSC/esc_coe.c:299-445 | between two servers, the first exchange completes the transfer or leaves both sides in step |
| SdoRoundTrip.Continue | SSC/esc_coe.c:711-1116 | every further exchange moves bytes and keeps both sides in step, or completes the transfer |
| SdoRoundTrip.TransferCompletes | SSC/esc_coe.c:711-1116 | after at most as many exchanges as bytes are missing the receiving entry holds the same bytes |
| CompleteAccess.SubindexLoop | SSC/esc_coe.c:475-573 | size, block and storage after the loop; the size does not depend on whether the pass measures, uploads or downloads |
| BlockLayout.LayoutIs | SSC/esc_coe.c:498-564 | for objects of whole bytes and fixed length: entry j starts at the sum of the bit lengths before it, with 16 bits for subindex 0 unless the object is a variable; the size is the whole sum |
| BlockLayout.UploadedBlock | SSC/esc_coe.c:475-573 | an upload shows each entry's bytes there, zeroes if it cannot be read, and a zero behind a subindex 0 of one byte |
| BlockLayout.DownloadedBlock | SSC/esc_coe.c:475-573 | a full download puts the bytes from there into each writable entry's variable |
| BlockLayout.CutShort | SSC/esc_coe.c:566-569 | a shorter one writes exactly the first entry and the others that start before its end |
| BlockLayout.MixedLayout | SSC/esc_coe.c:498-564 | positions and size with bit fields: entries of whole bytes start on the next byte boundary, others right away |
| BlockLayout.FieldShown | SSC/esc_coe.c:538-556 | the bits of a bit field in its byte of the block, whatever the block held before |
| BlockLayout.OlderBitShows | SSC/esc_coe.c:538-556 | a readable bit field behind one that cannot be read shows a bit of an older block |
| GalvoData.IdentitySize | SSC/galvo_od.c:98-103 | the identity object has 18 bytes from subindex 0, and 16 from subindex 1 |
| GalvoData.IdentityBlock | SSC/galvo_od.c:23-30 | its complete upload, in every state with mailboxes, as 18 literal bytes |
| CompleteAccessRoundTrip.PlaceInside | SSC/esc_coe.c:498-564 | every entry starts on a byte boundary inside the measured size |
| CompleteAccessRoundTrip.PlacesApart | SSC/esc_coe.c:498-564 | different entries occupy different bytes |
| CompleteAccessRoundTrip.UploadShows | SSC/esc_coe.c:507-529 | the block shows each entry at its place, zeroes when it cannot be read |
| CompleteAccessRoundTrip.DownloadStores | SSC/esc_coe.c:531-535 | each writable entry takes the bytes at its place |
| CompleteAccessRoundTrip.FullLength | SSC/esc_coe.c:566-569 | a download of the full length is not cut short |
| CompleteAccessRoundTrip.UploadThenDownloadAll | SSC/esc_coe.c:475-573 | upload and full download restore every entry readable and writable, zero those only writable, and change no other variable |
| CompleteTransfer.BlockReturns | SSC/esc_coe.c:654-689 | the initiate response of a complete upload sent back carries the same bytes and size |
| CompleteTransfer.StartAll | SSC/esc_coe.c:594-1037 | between two servers, the first exchange restores the object or leaves both sides in step |
| CompleteTransfer.ContinueAll | SSC/esc_coe.c:711-1116 | every further exchange moves bytes of the block, the last one spreads it over the entries |
| CompleteTransfer.ObjectRestored | SSC/esc_coe.c:475-573 | a full download of the other server's block leaves its value in every entry readable and writable |
| CompleteTransfer.BlockTransferCompletes | SSC/esc_coe.c:711-1116 | after at most as many exchanges as bytes are missing the whole block is spread over the entries |
| CompleteTransfer.ObjectTransferRestores | SSC/esc_coe.c:594-1116 | so a whole object sent from one server to the other, in one message or in segments, arrives in every entry readable and writable, and nothing else changes |
| Eoe.EoeLink.InitRx | SSC/esc_eoe.c:927-944 | reception starts over, and a missing buffer is fetched if possible |
| Eoe.EoeLink.ReceiveFragment | SSC/esc_eoe.c:730-824 | a fragment is appended, starts a frame, completes one, or resets the reception |
| Eoe.EoeLink.CutFragment | SSC/esc_eoe.c:857-917 | the next fragment and the sender's position after it |
| Eoe.EoeLink.SendFragment | SSC/esc_eoe.c:828-923 | a frame of any length is fetched if none is being sent, and one fragment is queued if there is a buffer |
| EoeBytes.HeaderWritten | SSC/esc_eoe.c:857-894 | the bytes of a fragment's header |
| EoeBytes.HeaderRead | SSC/esc_eoe.c:47-81 | which bits of the header are read as port, flags, fragment number, offset and frame number |
| EoeBytes.FragmentIs | SSC/esc_eoe.c:857-917 | fields and bytes of each fragment sent, and the sender afterwards |
| EoeBytes.ReceivedExactly | SSC/esc_eoe.c:730-824 | what every fragment does: reception starts over, the data are put behind what is there, or the frame is delivered without its time stamp; for each number, frame number, offset and size, and whether a buffer is there |
| EoeRuns.FragmentFields | SSC/esc_eoe.c:47-81 | what is put into the two header words is what is read from them |
| EoeRuns.FragmentFits | SSC/esc_eoe.c:857-894 | fragment number, offset and size fit their 6-bit fields and the data fit the mailbox |
| EoeRuns.FrameArrives | SSC/esc_eoe.c:730-923 | every frame of 1 to 2016 bytes is delivered exactly once and unchanged, whatever the receiver was doing |
| EoeRuns.ReceiveStep | SSC/esc_eoe.c:730-824 | any fragment extends the frame, starts one, resets, or delivers one whole frame |
| EoeRuns.OnlyWholeFrames | SSC/esc_eoe.c:730-824 | for arbitrary streams each delivered buffer is the data of consecutive fragments 0 to k of one frame, without gaps, within the announced size, the last flagged last |
| Foe.FoeWriter.Init | SSC/esc_foe.c:203-211 | all transfer variables are cleared |
| Foe.FoeWriter.Abort | SSC/esc_foe.c:217-239 | an error is reported if there is a code and a buffer, and the transfer is over |
| Foe.FoeWriter.SendAck | SSC/esc_foe.c:283-306 | the current packet is acknowledged and the next one expected, or an error if there is no buffer |
| Foe.FoeWriter.OpenFile | SSC/esc_foe.c:53-108 | the first file whose name matches decides; wrong password and wrong state have their own errors |
| Foe.FoeWriter.FWrite | SSC/esc_foe.c:147-179 | the bytes go through the buffer one by one until data or room end or the write function fails |
| Foe.FoeWriter.FClose | SSC/esc_foe.c:187-198 | the rest of the buffer is written |
| Foe.FoeWriter.WriteRequest | SSC/esc_foe.c:393-430 | a write request opens the file and acknowledges packet 0, or is refused |
| Foe.FoeWriter.DataPacket | SSC/esc_foe.c:435-508 | a packet is written and acknowledged, ends the file, or is refused with the error for what is wrong |
| FoeAnswers.StartsExactly | SSC/esc_foe.c:393-430 | a session starts if and only if none is open, a buffer is free, and the first file whose name matches has this password and may be written in this state |
| FoeAnswers.WriteRefused | SSC/esc_foe.c:53-108 | every refused request has its error code: 0x8001 no file, 0x800A password, 0x8009 state, 0x8004 session open; and nothing is open afterwards |
| FoeAnswers.WriteGranted | SSC/esc_foe.c:393-430 | a granted one is acknowledged as packet 0; all that changes |
| FoeAnswers.PacketRefused | SSC/esc_foe.c:435-470 | a packet without session, with another number, or beyond the file's end has its error code, and writes nothing |
| FoeAnswers.PacketAnswered | SSC/esc_foe.c:471-507 | the answer to any other packet, by how many of its bytes get through: acknowledged, refused with 0x800B, or both; and what is written and expected afterwards |
| FoeAnswers.EmptyPacket | SSC/esc_foe.c:497-506 | an empty packet writes the rest of the buffer, is acknowledged, and ends the session |
| FoeRuns.SessionStarts | SSC/esc_foe.c:393-430 | a session starts at packet 1 with nothing written |
| FoeRuns.PacketTaken | SSC/esc_foe.c:471-492 | a full packet extends what is written or buffered by exactly its payload |
| FoeRuns.LastPacketTaken | SSC/esc_foe.c:459-506 | a shorter packet completes the file |
| FoeRuns.WrongPacket | SSC/esc_foe.c:452-458 | any other packet number ends the session and writes nothing |
| FoeRuns.SessionWritesFile | SSC/esc_foe.c:147-508 | for packets 1, 2, 3, ...: if and only if every full packet finds a buffer for its acknowledgement, the calls write the concatenated payloads, all but the last a full buffer, each at the number of bytes written before it |
| FoeRuns.TwoAnswers | SSC/esc_foe.c:471-506 | a packet gets two answers, an error and an acknowledgement of packet 0, if and only if it is full and partly written |
| FoeRuns.TakenExactly | SSC/esc_foe.c:147-179 | the bytes of a packet are taken up to the first one for which the file is full, or which fills the buffer for a call of the write function that fails, the call named by its number |
| FoeRuns.PartlyWritten | SSC/esc_foe.c:147-179 | a packet is partly written if and only if its first byte is taken and some later byte is not |
| FoeStreams.StreamWritesInOrder | SSC/esc_foe.c:393-600 | for arbitrary streams of requests, packets and other messages and any failures of the write function: what was written since the last accepted request is the beginning of the data received since then, each call at its place, and nothing is missing while the transfer goes on |

## Left out

- SizeOfPDO: subindex 0 of assign and mapping objects is below 255, since a count of 255 never leaves the loop over an 8-bit counter; no assigned or mapped index is 0xFFFF, the end marker's own index; entries in use are as wide as they are read.
- FindObject: an index of 0xFFFF finds the end marker, as in the code; the end marker has no entries, so what the upload and download handlers do with it is undefined, and they are modelled for other indexes only.
- FindSubindex: objects have maxsub + 1 entries, because the search first looks at entry number subindex for every subindex up to maxsub (SSC/esc_coe.c:62). COE_initDefaultValues takes maxsub for the highest subindex instead; for sparse objects with fewer entries the search would read behind them.
- VariableIsPacked: entries as long as the standard makes their data type; for others PackLine and PdoPack say which bytes are moved, in terms of the data type.
- SubindexLoop: bit fields are shorter than 32 bits and subindex 0 has at most 16 bits, since longer ones leave the code's shifts and padding undefined.
- DownloadedBlock: entries are whole bytes in variables of their own; with a shared variable the last entry decides. Downloads skip bit fields (DownloadSkips).
- Download: the bytes to be stored lie inside the received message's mailbox and do not exceed the entry, which the handler relies on for types of flexible length and for requests shorter than their header.
- DownloadSegment: modelled whenever the place the last transfer points to has room for the segment, which the handler does not check.
- UploadSegment: modelled for counters that lie inside the source, as every started transfer leaves them.
- DownloadAll: the entries reached by the announced bytes lie inside the mailbox.
- GetOdList: the dictionary has at least one object; an empty one makes the fragment counter wrap.
- RunInvariant: that the mapping is out of reach is sufficient. It is needed for cells that hold values in use and neither counts nor assigned indexes (WritableValueMakesStale); a change of a cell that is read but holds nothing in use does no harm. The application is taken not to write its own mapping variables. Messages are those the handlers are modelled for, see Download, DownloadAll, DownloadSegment and UploadSegment.
- GalvoRunInvariant: mailboxes have at least 28 data bytes, so that no single entry of the dictionary is moved in segments; the repository's have 122. With fewer, the device name, which may be assigned, is uploaded in segments, and is no longer out of reach.
- CompleteDownloadMakesStale: the object fits one message, its entries are whole bytes in variables of their own, and entries that can be written now can be read; otherwise other values change with the one that makes the lists stale.
- SilentExactly: that a slave with more buffers left recovers needs buffers in order in the sense of RunSafe, see there; that it stays silent otherwise does not (LeftStays).
- RunSafe: that no buffer is lost needs the posted mailbox to stay full until its event, which depends on the chip.
- ReceiveFragment: receive buffers hold at least 2016 bytes, the longest frame a fragment can announce; the size of the buffer that is fetched is not checked (SSC/esc_eoe.c:940), and a fragment for a shorter one would be stored behind it.
- OnlyWholeFrames: fragments with an appended time stamp are excluded; the code cuts 4 bytes off without checking that they are there, and the model delivers nothing for a shorter frame.
- SendFragment: freeing a sent buffer is taken to succeed. Frames of more than 2016 bytes are cut, but their size field overflows, so that FrameArrives is about shorter ones.
- FWrite: the file's address offset and total size are not reduced to 32 bits; the position's limit keeps them below.
- SessionWritesFile: the write function does not fail; for failures see StreamWritesInOrder.
- EscState: a request that computes the mapping needs one that can be read, as SizeOfPDO does. SyncManager enable and disable are taken to succeed, so the loops that wait for their read-back end; the station address and DC registers are not read.
- MailboxRound: the calls before and after it in ecat_slv_poll are modelled one by one; the two mailbox sizes of the repository are equal, so the size does not change in Bootstrap.
- The texts of object and entry descriptions (SDO_getod, SDO_geted) are inputs; only what answering does to the buffers is modelled.
- COE_initDefaultValues, the EEPROM emulation, distributed clocks, interrupts and ecat_slv_worker.
- EoE address settings and their getters and setters; reading files over FoE, which is not compiled in.
- Unused bytes of a response, which hold what the buffer held before, are not part of a frame's body.
- Hooks other than the safe-output callback; what the galvo callbacks do, other than changing the application's own variables.
- Big-endian targets, packed structure layout and the pulse timing of the galvo output driver.
- The hardware access layer is not part of this model.
