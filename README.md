# mvdsv builtins with their own bookkeeping, in Dafny

This project models the native builtins of the mvdsv QuakeWorld server's
QuakeC bridge (`mvdsv/source/pr_cmds.c`) that keep state of their own or do
string and index arithmetic, and proves what they promise:

- **stuffcmd** (`StuffText`, `Progs.Context.StuffCmd`): the bounded per-client
  stufftext accumulator. It refuses an append that does not fit before
  changing anything. It then scans the buffer backwards from its terminating
  NUL. An exact `"disconnect\n"` drops the client. Any other newline sends
  the whole buffer, then sets `buf[0]` to NUL, so each later newline sends
  one empty stufftext. The scan is an imperative loop over a raw buffer
  (`ScanBuffer`). It is proved equal to the closed form `StuffText.StuffSends`,
  whose message count is proved against the number of newlines.
- **String lifetimes** (`TempStrings`, `DynamicStrings`):
  - the eight-buffer scratch ring behind `PF_SetTempString`, and the bounded
    concatenation of `PF_VarString`;
  - the dynamic string table of `newstr`/`freestr`/`clear_strtbl`, with
    lowest-free-slot allocation, the `-(i + MAX_PRSTR)` handle encoding and
    the exhaustion error;
  - `argv`'s index clamp, `substr`'s start/length clamping (including what
    negative lengths do to `strlcpy`), and `strcat`.
- **Precache tables** (`Precache`): `precache_sound`/`precache_model` are an
  insert-if-absent over an array. They are guarded by the loading state and
  by `PR_CheckEmptyString`, and raise an overflow error when full. The lookup
  loop of `setmodel`/`ambientsound` scans up to the first empty slot.
- **Message routing** (`Routing`, `Progs.Context.Write`): `WriteDest` maps a
  destination code to a server-wide buffer. It has two error severities.
  `MSG_ONE` goes to `msg_entity`'s reliable stream, with the exact byte
  reservation and the optional demo mirror. The encoders are counted in
  bytes only.
- **Spectator mirroring** (`Clients`): the mirror loops of sprint,
  centerprint and stuffcmd, with the gates exactly as the code reads them.
- **Console state machines** (`Commands`, `Progs.Context`):
  - readcmd suspends and restores the redirect;
  - redirectcmd refuses to nest;
  - executecmd restores self/other;
  - changelevel fires once per spawncount.
- **Selectors** (`Selectors`): `nextent` and `find` forward scans,
  `newcheckclient`'s cycling through client numbers, and `min`/`max`.
- **The builtin table** (`BuiltinTable`): the 107 ids of `pr_builtin`, with
  `PF_Fixme` at fixed ids.
- **Log text cleaning** (`LogText`): the `chartbl2` translation table, built
  by `PR_CleanLogText_Init`'s writes in order and applied in place by
  `PR_CleanText`.

The globals the builtins share live in one object, `Progs.Context`:

- the scratch ring and its index;
- the string table and the two precache tables;
- the client slots;
- the demo blocks and the server-wide buffers written;
- `sv_redirected`, the command buffer, self/other, and the changelevel latch.

Each builtin that changes this state is a method. Its `ensures` ties the new
state to a specification function, and the lemmas beside that function prove
what the source promises.

Some behaviours follow from the code as written and are stated as such:

- **The scratch ring is shared at start-up.** `pr_string_temp` starts at
  buffer 0, and the first `PF_SetTempString` selects buffer `0 & 7` again, so
  the first two scratch results share a buffer
  (`TempStrings.FirstTwoResultsShareBuffer`).
- **stuffcmd's count is one short in one case.** A newline at index 0 is never
  seen after the first send, because that send zeroes `buf[0]`. The number
  of stufftext messages is therefore the number of newlines, minus one when
  `buf[0]` is a newline that is not the last (`StuffText.StuffSendsCount`).
- **The mirror gates differ between builtins.** centerprint and stuffcmd test
  the primary client's `state` and `spec_print`, while sprint tests the
  spectator's (`Clients.CenterPrintIgnoresSpectatorFlags`,
  `Clients.SprintHonoursSpectatorFlags`).
- **WriteDest's float comparison.** It compares the float destination with
  `MSG_ONE` exactly, but switches on its truncation. A code strictly between 1
  and 2 therefore reaches the fatal "Shouldn't be at MSG_ONE"
  (`Routing.MsgOneFatalOnlyBetween`).
- **The demo mirror changes two encoders.** `WriteChar` and `WriteAngle`
  write the byte encoder to the demo. The size is the same, but the encoder
  is not (`Routing.DemoMirrorSameSize`).
- **Cleaning is not idempotent.** Byte 255 is cleaned to DEL (127), which a
  second cleaning turns into `>` (`LogText.CleanDelOnlyFrom255`).

Where an error is raised, the model returns `Err`/`Fail` with the fault:
`RunError` for `PR_RunError`, `ServerError` for `SV_Error` and `Sys_Error`. Both stop the
builtin, and the model changes no state on that path.

## Model

| member | source | states |
|---|---|---|
| Common.Truncate | mvdsv/source/pr_cmds.c:1086 | a bounded copy keeps exactly the first n bytes, or all of a shorter string |
| Common.StrlCat | mvdsv/source/pr_cmds.c:743-744 | strlcat into a buffer of the given size: the concatenation when it fits, otherwise its prefix of size-1 bytes |
| TempStrings.VarString | mvdsv/source/pr_cmds.c:36-47 | the strlcat loop returns VarStringValue: arguments first..argc-1 joined, cut to 2047 bytes, "" when first >= argc |
| TempStrings.VarStringValue | mvdsv/source/pr_cmds.c:36-47 | shorter than 2048 bytes; a prefix of the joined arguments, and all of them when they fit |
| TempStrings.TempRingRevisits | mvdsv/source/pr_cmds.c:819-826 | buffer index & 7 repeats every eight selections |
| TempStrings.TempRingDistinct | mvdsv/source/pr_cmds.c:819-826 | eight consecutive selections use eight different buffers |
| TempStrings.FirstTwoResultsShareBuffer | mvdsv/source/pr_cmds.c:819-826 | the initial pr_string_temp and the first selection are both buffer 0 |
| TempStrings.ResultSurvivesSeven | mvdsv/source/pr_cmds.c:819-826 | from the second result on, a scratch result is not overwritten by the next seven |
| TempStrings.ArgvIndex | mvdsv/source/pr_cmds.c:876-879 | the index is clamped into 0..argc-1 and kept when already inside |
| TempStrings.ArgvClamps | mvdsv/source/pr_cmds.c:876-881 | argv returns the token at the index clamped into 0..argc-1, cut to 2047 bytes (an empty token gives ""), and "" when there are no tokens |
| TempStrings.SubstrInRange | mvdsv/source/pr_cmds.c:907-933 | for a start inside s and a positive length: s[start..start+min(len, strlen(s)-start)] |
| TempStrings.SubstrEmptyCases | mvdsv/source/pr_cmds.c:917-920 | start past the end, zero length or an empty string give "" |
| TempStrings.SubstrMinusOneIsStale | mvdsv/source/pr_cmds.c:922-930 | length -1 makes strlcpy copy nothing, so the old scratch contents are returned |
| TempStrings.SubstrVeryNegativeIsTail | mvdsv/source/pr_cmds.c:922-930 | a length below -1 copies the whole tail from start |
| TempStrings.StrcatValue | mvdsv/source/pr_cmds.c:943-950 | shorter than 2048 bytes; a prefix of all arguments joined, and all of them when they fit |
| Progs.Context.SetTempString | mvdsv/source/pr_cmds.c:823-826 | the selected buffer is index & 7 and the index advances by exactly one |
| Progs.Context.Argv | mvdsv/source/pr_cmds.c:872-884 | returns ArgvValue, writes it into the current scratch buffer only, then rotates |
| Progs.Context.Substr | mvdsv/source/pr_cmds.c:907-933 | returns SubstrValue; the early exit leaves every scratch buffer and the index as they were |
| Progs.Context.Strcat | mvdsv/source/pr_cmds.c:943-950 | returns StrcatValue, written into the current scratch buffer only, then rotates |
| DynamicStrings.DecodeEncode | mvdsv/source/pr_cmds.c:1022-1041 | freestr accepts every handle newstr returns and decodes it back to its slot |
| DynamicStrings.EncodeDecode | mvdsv/source/pr_cmds.c:1038-1041 | every accepted handle decodes to a slot whose encoding it is |
| DynamicStrings.HandlesDistinct | mvdsv/source/pr_cmds.c:1022 | different slots get different handles, all negative |
| DynamicStrings.NewStrSize | mvdsv/source/pr_cmds.c:1015-1017 | the allocation is strlen+1, or parm1 when argc == 2 and it is larger |
| DynamicStrings.FirstFree | mvdsv/source/pr_cmds.c:1006-1010 | the lowest empty slot: every slot below it is taken |
| DynamicStrings.NewStrStores | mvdsv/source/pr_cmds.c:999-1022 | newstr fills the lowest empty slot with a full copy of s, changes no other slot, and returns that slot's handle |
| DynamicStrings.NewStrExhausted | mvdsv/source/pr_cmds.c:1012-1013 | newstr fails with "PF_newstr: MAX_PRSTR" exactly when every slot is taken |
| DynamicStrings.FreeThenNewReuses | mvdsv/source/pr_cmds.c:999-1044 | a freed slot below every other empty slot is the next one newstr fills |
| DynamicStrings.ClearedTableAllocatesSlotZero | mvdsv/source/pr_cmds.c:1046-1056 | after clear_strtbl the next newstr takes slot 0 |
| Progs.Context.NewStr | mvdsv/source/pr_cmds.c:999-1022 | the slot loop and store follow DynamicStrings.NewStr: the new table and handle, or the error with the table unchanged |
| Progs.Context.FreeStr | mvdsv/source/pr_cmds.c:1033-1044 | a handle above -MAX_PRSTR fails with "freestr: Bad pointer" and changes nothing; otherwise only its slot is emptied |
| Progs.Context.ClearStrTbl | mvdsv/source/pr_cmds.c:1046-1056 | every slot is empty afterwards |
| StuffText.CStr | mvdsv/source/pr_cmds.c:748-758 | the C string of a raw buffer: NUL-free, the bytes before its first NUL |
| StuffText.ScanIsStuffSends | mvdsv/source/pr_cmds.c:746-783 | the descending scan drops on "disconnect\n", and otherwise sends StuffSends(b) |
| StuffText.ScanCleared | mvdsv/source/pr_cmds.c:746-783 | once buf[0] is NUL, every newline above index 0 sends one empty message |
| StuffText.ScanUncleared | mvdsv/source/pr_cmds.c:746-783 | before the first send, the scan sends nothing without a newline; otherwise it drops, or sends b and then the blanks |
| StuffText.StuffOverflow | mvdsv/source/pr_cmds.c:742-744 | stuffcmd fails with "stufftext buffer overflow" exactly when strlen(buf)+strlen(str) >= MAX_STUFFTEXT |
| StuffText.StuffAccumulates | mvdsv/source/pr_cmds.c:744-783 | without a newline, the buffer becomes old ++ str and nothing is sent |
| StuffText.StuffDisconnect | mvdsv/source/pr_cmds.c:750-756 | exactly "disconnect\n" sets drop, empties the buffer and sends nothing |
| StuffText.StuffSendsWhole | mvdsv/source/pr_cmds.c:746-783 | any other buffer with a newline is sent whole first, text after the last newline included; then only empty messages follow, and the buffer ends empty |
| StuffText.StuffSendsCount | mvdsv/source/pr_cmds.c:746-783 | the number of messages is the number of newlines, minus one when a newline at index 0 is not the last |
| StuffText.StuffKeepsBuffer | mvdsv/source/pr_cmds.c:742-783 | a successful stuffcmd leaves a buffer within MAX_STUFFTEXT that has no newline |
| Progs.Context.StuffCmd | mvdsv/source/pr_cmds.c:726-783 | a non-client or an overflow fails and changes nothing; otherwise the client's buffer and drop flag, the messages sent to it and its mirrors, and the demo blocks follow StuffText.StuffCmd |
| Progs.Context.ScanBuffer | mvdsv/source/pr_cmds.c:746-783 | the loop's effect on the client slots and the demo is that of StuffText.Scan |
| Progs.Context.AtNewline | mvdsv/source/pr_cmds.c:748-782 | at a newline: the disconnect drop, or one send followed by buf[0] = 0 |
| Progs.Context.SendStuffText | mvdsv/source/pr_cmds.c:757-779 | one send: the stufftext to the client, its demo block when recording, then the mirror loop |
| Clients.MirrorAllEffect | mvdsv/source/pr_cmds.c:765-779 | a slot gets a copy exactly when the mirror test admits it, and no other slot changes (the same loop as sprint's at 253-264 and centerprint's at 306-320) |
| Clients.MirrorOffWithoutFlag | mvdsv/source/pr_cmds.c:766 | with the channel's bit clear in sv_specprint nothing is mirrored (likewise at 254 and 307) |
| Clients.SprintHonoursSpectatorFlags | mvdsv/source/pr_cmds.c:253-264 | sprint is never mirrored to a spectator that is not connected or did not set the sprint bit |
| Clients.PrimaryGateClosed | mvdsv/source/pr_cmds.c:765-779 | stuffcmd, like centerprint at 306-320, mirrors nothing when the primary client is a free slot or lacks the bit |
| Clients.CenterPrintIgnoresSpectatorFlags | mvdsv/source/pr_cmds.c:306-320 | a spectator with no spec_print bits still gets the centerprint mirror when the primary has the bit |
| Clients.MirrorKeepsGates | mvdsv/source/pr_cmds.c:253-264 | a mirror pass keeps every field the gates read, and every stufftext buffer |
| Clients.StuffSendAllEffect | mvdsv/source/pr_cmds.c:757-779 | after the sends, the client has all stufftexts in order, and each admitted spectator has all of them too |
| Clients.StuffDemo | mvdsv/source/pr_cmds.c:759-763 | one dem_single block per send, of declared size 2+strlen(buf) |
| Progs.Context.MirrorLoop | mvdsv/source/pr_cmds.c:765-779 | the loop over svs.clients leaves the slots MirrorAll describes (also sprint's at 253-264 and centerprint's at 306-320) |
| Progs.Context.Sprint | mvdsv/source/pr_cmds.c:230-266 | a non-client changes nothing; otherwise the print goes to the client and then to the admitted spectators |
| Progs.Context.CenterPrint | mvdsv/source/pr_cmds.c:279-322 | a non-client changes nothing; otherwise the client, the demo when recording, and the admitted spectators get the centerprint |
| Precache.BadStringBytes | mvdsv/source/pr_cmds.c:1484-1488 | a name is refused unless its first byte is above ' ' and below 0x80 (a signed char) |
| Precache.Precache | mvdsv/source/pr_cmds.c:1495-1543 | the insertion loop leaves the table PrecacheResult gives, or fails with the table unchanged |
| Precache.PrecachePreserves | mvdsv/source/pr_cmds.c:1507-1516 | a successful precache keeps the table a NULL-terminated prefix without duplicates, keeps every name, fills at most one slot, and leaves s in the table |
| Precache.PrecachePresentUnchanged | mvdsv/source/pr_cmds.c:1514-1515 | a name already present leaves the table unchanged |
| Precache.PrecacheIdempotent | mvdsv/source/pr_cmds.c:1507-1516 | a second identical precache changes nothing |
| Precache.PrecacheOverflow | mvdsv/source/pr_cmds.c:1507-1517 | the overflow error is raised exactly when every slot holds some other name |
| Precache.PrecacheGuards | mvdsv/source/pr_cmds.c:1500-1505 | outside loading, then for a bad name, the run error comes before the table is read |
| Precache.FindFrom | mvdsv/source/pr_cmds.c:176-178 | the lookup finds the first slot holding s before the first empty slot, and nothing otherwise |
| Precache.FindInPacked | mvdsv/source/pr_cmds.c:175-181 | in a packed table the lookup finds a name exactly when it is stored |
| Precache.FindAfterPrecache | mvdsv/source/pr_cmds.c:175-181 | after a successful precache the lookup finds the name |
| Precache.Lookup | mvdsv/source/pr_cmds.c:176-178 | the scan loop computes FindFrom |
| Precache.ModelIndex | mvdsv/source/pr_cmds.c:175-181 | setmodel's index holds the model, or it fails with "no precache: <m>" |
| Precache.SetModelAfterPrecache | mvdsv/source/pr_cmds.c:175-181 | a precached model is always found, at the one slot that holds it |
| Progs.Context.PrecacheSound | mvdsv/source/pr_cmds.c:1495-1518 | the sound table follows PrecacheResult; on an error it is unchanged |
| Progs.Context.PrecacheModel | mvdsv/source/pr_cmds.c:1520-1543 | the model table follows PrecacheResult; on an error it is unchanged |
| Progs.Context.SetModel | mvdsv/source/pr_cmds.c:175-184 | returns ModelIndex of the model table |
| Progs.Context.AmbientSound | mvdsv/source/pr_cmds.c:468-503 | an unprecached sound adds nothing; otherwise the seven signon items with the found index |
| Routing.TruncToInt | mvdsv/source/pr_cmds.c:1835 | the float-to-int cast rounds toward zero |
| Routing.WriteDestTable | mvdsv/source/pr_cmds.c:1829-1868 | each truncated code maps to its sink; MSG_INIT outside loading is a run error; unknown codes are a run error; only MSG_ONE is a server error |
| Routing.WriteTarget | mvdsv/source/pr_cmds.c:1829-1881 | a client target is always a valid slot |
| Routing.MsgOneFatalOnlyBetween | mvdsv/source/pr_cmds.c:1835-1842 | "Shouldn't be at MSG_ONE" is reached exactly for codes strictly between 1 and 2 |
| Routing.ClientPathRequiresClient | mvdsv/source/pr_cmds.c:1870-1881 | exact MSG_ONE fails only for a msg_entity that is not a client, as a run error |
| Routing.ReserveIsExact | mvdsv/source/pr_cmds.c:1883-2002 | the count each single-client write reserves (its ClientReliableCheckBlock argument) equals the bytes its encoder appends |
| Routing.DemoMirrorSameSize | mvdsv/source/pr_cmds.c:1898-1956 | the demo copy has the same size; only WriteChar and WriteAngle change the encoder |
| Routing.MessageReserve | mvdsv/source/pr_cmds.c:757 | a stufftext, like a centerprint at 297, reserves 2+strlen; the unreserved sprint has no size |
| Routing.DemoOf | mvdsv/source/pr_cmds.c:759-763 | the demo block for a slot carries that slot and the reserved size |
| Progs.Context.Write | mvdsv/source/pr_cmds.c:1883-2002 | an error changes nothing; MSG_ONE appends to the client (and to the demo when recording); any other code appends to its sink |
| Commands.ReadCmdRestores | mvdsv/source/pr_cmds.c:1067-1094 | readcmd leaves sv_redirected as it found it, never stacks redirects, runs what was queued under the old redirect and runs s alone under RD_MOD |
| Commands.RedirectCmdRuns | mvdsv/source/pr_cmds.c:1110-1123 | redirectcmd runs the queue, s last, with output to the client, and ends with nothing redirected |
| Commands.ChangeLevelStep | mvdsv/source/pr_cmds.c:2072-2075 | the latch always ends at the current spawncount |
| Commands.ChangeLevelOnce | mvdsv/source/pr_cmds.c:2066-2078 | at most one map command per spawncount; a second call in the same level queues nothing, whatever map it names |
| Progs.Context.ReadCmd | mvdsv/source/pr_cmds.c:1067-1094 | the redirect and command-buffer events are ReadCmdEvents; the queue ends empty, the redirect is restored, and the output is cut to 7999 bytes |
| Progs.Context.RedirectCmd | mvdsv/source/pr_cmds.c:1104-1124 | an active redirect makes it do nothing; a non-client fails with "Parm 0 not a client"; otherwise the events are RedirectCmdEvents |
| Progs.Context.ExecuteCmd | mvdsv/source/pr_cmds.c:804-815 | the buffer runs, and self and other are what they were before |
| Progs.Context.ChangeLevel | mvdsv/source/pr_cmds.c:2066-2078 | the latch and the queue follow ChangeLevelStep |
| Selectors.NextEnt | mvdsv/source/pr_cmds.c:1735-1756 | the first later entity that is not free, or 0 exactly when every later one is free |
| Selectors.Find | mvdsv/source/pr_cmds.c:1453-1482 | a NULL search string is a run error; otherwise the first later live entity whose field matches, or 0 when none does |
| Selectors.ClampClient | mvdsv/source/pr_cmds.c:618-621 | the previous check is clamped into 1..MAX_CLIENTS and kept when inside |
| Selectors.CycleSteps | mvdsv/source/pr_cmds.c:623-647 | the cycle visits every other client once before it returns to the start |
| Selectors.NewCheckClient | mvdsv/source/pr_cmds.c:618-647 | the result is a client number that is eligible or the start, and every client passed over before it is ineligible |
| Selectors.NewCheckMoves | mvdsv/source/pr_cmds.c:618-647 | when some other client is eligible, the check moves to an eligible one |
| Selectors.Min | mvdsv/source/pr_cmds.c:2449-2465 | fewer than two arguments is a server error; otherwise an argument no larger than any other |
| Selectors.Max | mvdsv/source/pr_cmds.c:2467-2483 | fewer than two arguments is a server error; otherwise an argument no smaller than any other |
| BuiltinTable.FixmeExactlyAt | mvdsv/source/pr_cmds.c:2493-2617 | PF_Fixme is bound at exactly the ten ids 0, 5, 33, 39, 42, 48, 50, 65, 66, 71 |
| BuiltinTable.DispatchFails | mvdsv/source/pr_cmds.c:2486-2489 | a call fails exactly at the PF_Fixme ids, with "unimplemented bulitin" |
| BuiltinTable.DoubleBindings | mvdsv/source/pr_cmds.c:2493-2617 | precache_model, precache_sound and precache_file each sit at two ids |
| LogText.InitCleanTable | mvdsv/source/pr_cmds.c:1230-1264 | the writes in the initialiser's order leave chartbl2[b] == CleanByte(b) for every byte |
| LogText.CleanByteIsPlain | mvdsv/source/pr_cmds.c:1230-1264 | every cleaned byte is 7-bit, not NUL, and is at least 32 (DEL only from 255), a newline or a carriage return |
| LogText.CleanKeepsPlain | mvdsv/source/pr_cmds.c:1230-1264 | printable ASCII, newline and carriage return are unchanged |
| LogText.CleanDelOnlyFrom255 | mvdsv/source/pr_cmds.c:1237-1258 | only byte 255 becomes DEL, which a second cleaning turns into '>' |
| LogText.CleanIdempotent | mvdsv/source/pr_cmds.c:1230-1264 | cleaning twice is cleaning once, for every byte except 255 |
| LogText.CleanText | mvdsv/source/pr_cmds.c:1266-1270 | the in-place loop translates each byte before the first NUL and nothing after it |
| LogText.CleanedShape | mvdsv/source/pr_cmds.c:1266-1270 | the cleaned text keeps its first NUL where it was, and every byte before it is 7-bit and at least 32 (DEL only from 255), a newline or a carriage return |
| LogText.CleanedStable | mvdsv/source/pr_cmds.c:1266-1270 | cleaning an already cleaned text changes nothing unless it held byte 255 |

## Left out

- Physics, geometry and floating-point builtins (traceline, walkmove, droptofloor, vectoyaw and the rest, random, sin/cos/sqrt) are not modelled. They are numerics or calls into the movement code.
- newcheckclient's PVS handling is not modelled, because it is geometry in other files. The entity tests (free, health, FL_NOTARGET) are one `eligible` flag per client.
- The MSG_Write*, ClientReliableWrite_* and DemoWrite_Begin encoders live in other files. A write is modelled as an item appended to a sink, and its size in bytes.
- Reliable-buffer overflow handling inside ClientReliableWrite is not modelled. Neither is SV_ClientPrintf's message-level filtering, so a sprint is recorded with its level.
- File and clock I/O are not modelled: PF_log's file writes, logfrag's time, calltimeofday, and the map-listing builtins.
- Float-to-text and text-to-float builtins (ftos, vtos, stof) and cvar access are not modelled.
- Entity allocation and printing, the tokenizer, Cbuf_Execute and SV_Begin/EndRedirect are opaque. Cbuf_Execute is an event recording the queued text and the redirect active while it runs. readcmd's captured output is a parameter.
- Progs.Context.ExecuteCmd: the values the executed commands leave in self and other are parameters.
- Console messages from Con_Printf (sprint and centerprint to a non-client, ambientsound without a precache) are not modelled. Those paths change nothing.
- RD_MOD (3) and svc_spawnstaticsound (29) come from headers that are not part of this model. Their values are assumed.
- PF_setmodel's Mod_ForName call and bounding-box update are not modelled. The model covers its precache lookup and error.
- pr_string_index is unbounded here. The source's int would overflow after 2^31 calls, which is out of reach in practice.
- The dispatcher's range check on builtin numbers lives in another file, so Dispatch requires an id in 0..106.
- break, strcpy and strncpy are not modelled, because they write to arbitrary memory and have no contract.
- Precache.Lookup: the source's scans in setmodel and ambientsound stop only at an empty slot, so in a completely full table an absent name makes them read past the array. The model stops at the table's end and reports the name as not precached.
- Progs.Context.SetModel: for a full table and an absent name it fails with "no precache", where the source reads past the array (through Precache.Lookup).
- Progs.Context.AmbientSound: for a full table and an absent name it adds nothing, where the source reads past the array (through Precache.Lookup).
- Progs.Context.Substr: PR_SetTmpString, called on the early exit, is not part of this model. It is assumed to leave the scratch ring and pr_string_index alone, which is what the early-exit clause of the contract states.
- Selectors.NextEnt: requires the start entity to exist (below sv.num_edicts). The loop's only exit test is equality with sv.num_edicts, so from an entity at or beyond it the source would read edicts past the end.
- Progs.Context.FreeStr requires an accepted handle to name a slot. The source checks no upper bound, and freeing an empty slot is Z_Free's business.
- Progs.Context.StuffCmd requires the appended string to be NUL-free, because a script string is its bytes before the NUL.
- Progs.Context.Substr requires the calls C defines: start inside the string, and no copy past the 2048-byte buffer.
- Clients.StuffSendAllEffect assumes the primary client is not a spectator tracking itself. Otherwise its own mirror copies interleave with its sends.
- MAX_PRSTR, MAX_STUFFTEXT and the precache table sizes are parameters, the array lengths and `maxStufftext`.
- Demo recording is a flag, and the demo is the sequence of dem_single blocks written. The demo's own buffering is not modelled.
