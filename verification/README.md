# Duet 5 Bluetooth bridge: a verified model

The Lenovo Duet 5 keyboard's Bluetooth report map reaches the tablet cut off at 512 bytes, and the
system's own HID host cannot use it. The repository works around this with a user-space bridge
(`bluetooth-keyboard/runtime/duet5-hogp-bridge.py`) that drives btclient over a pseudo-terminal and
writes input reports to `/dev/uhid`, a wrapper script that respawns it and unregisters competing GATT
clients, a library preloaded into btadapterd that decides which clients may open connections, and two
ways of completing the report map. This project models these parts in Dafny and proves what they
promise together.

Run `dafny verify dfyconfig.toml` in this directory.

## The parts

- `Framing`, `Messages`, `Decimal`: text. Chunks of terminal output to lines, with ECMA-48 control
  sequences (section 5.4) removed chunk by chunk; lines to registrations, callbacks and notifications, by
  the bridge's five regular expressions spelled out; numbers to digits and back. `TerminalText`, `MessageForms`
  and `MessageValues` say what these functions accept, remove and keep, character by character, and that what
  btclient prints is found.
- `BridgeLoop`, `BridgeLog`, `BridgeFrames`: the event loop as a state machine. `Act` gives the effect of one
  action (one search that matched, or one of the five steps that close an iteration), `Perform` that of any
  sequence of them. What the loop does to the outside world is an event in a log; clock readings, lines and the success
  of every call that can raise are parameters. The `direct` flag is the variant in
  `bluetooth-keyboard/bridge/duet5-hogp-bridge-direct.py`, which publishes no id and connects directly;
  `bluetooth-keyboard/bridge/duet5-hogp-bridge.py` has the same text as the runtime copy.
- `BridgeProcess`: the same loop as the object it is, its variables as fields, each method proved to take the
  fields where the state machine takes the state. `BridgeInputs`, `BridgeSafety`, `BridgeStart`, `BridgeModes`,
  `BridgeTiming`, `RetryTiming`, `BridgePublication`, `BridgeReports`, `RetryRotation`, `LineEffects` and
  `EndToEnd` hold the theorems about its runs: `BridgeInputs` and `BridgeStart` tell them from the actions, the
  others from the log. Unless a lemma says otherwise, a run is any sequence of actions whatever, which includes
  every sequence of iterations (`BridgeLoop.RunIsPerform`) and every run on text (`TextRuns.RunTextIsPerform`).
- `Watchdog`, `GattFilter`: the wrapper, the bridge and the filter around the id file. `Watchdog.Apply` is one
  system call of the wrapper or the bridge, a crash of the bridge, or another client coming or going; a run is
  any interleaving.
- `JoinedSystem`: the loop inside that protocol. What the loop logs as publishing its id is there the calls of
  `write_runtime_file`, which the others may interrupt; every other action of the loop is a move of its own. A run
  projects to a run of the protocol and to a run of the loop.
- `ShortItems`, `ReportMap`, `ReportMapBytes`, `InputLengths`: HID report descriptors, after sections 6.2.2.2, 6.2.2.4, 6.2.2.6
  and 6.2.2.7 of the USB Device Class Definition for HID 1.11. The three maps of the repository are members or
  cuts of one family: 272 bytes, then k contacts of 79 bytes, then 52 bytes.
- `UhidCodec`, `UhidShim`, `FlossPatches`: the UHID events the bridge writes, the preloaded `write` that edits
  them, and the two patches to Floss that complete and recognise the map.
- `ConfigRewrite`: the installer's edit of `btadapterd.conf`.
- `Wrappers`, `Bytes`, `Seqs`: option values, byte fields and facts about sequences.

## What the proofs found

- Stripping control sequences read by read is not the same as stripping them from the stream.
  `Framing.FramingExact` gives the exact condition, no read may cut one, and `Framing.CutSequenceShows` two reads
  that do.
- A notification of 4096 bytes or more is not delivered whole: `UhidCodec.SendInputRoundTrip` puts the limit at
  4095, since the report id shares the field.
- A failing callback advances the address and so does the retry that follows it. With one failure per attempt
  and an even number of addresses the one the run starts from is never tried, however long it lasts:
  `RetryRotation.RetryRotates`. `RetryRotation.OneOfTwoNeverTried` gives such runs of any length.
- A negative client id would be published and read back (`GattFilter.PublishedIdRead`), but the filter takes it
  for no id at all (`GattFilter.BridgePasses`).
- A bridge that crashes while it publishes leaves its temporary file behind, which nothing removes:
  `Watchdog.CrashLeavesTemporary`. Without a crash none is left (`Watchdog.NoTemporaryLeft`), and the id file is
  whole in either case.
- The installer's sed branch is taken for any mention of the filter, and then names the hotfix only if one of
  the two libraries was named in full: `ConfigRewrite.HotfixNamed`.
- `bluetooth-keyboard/descriptor-comparison.txt` describes live touch reports of 24 bytes, the five-contact
  length; the bridge creates its device with the four-contact map and expects 20. `InputLengths.ExpectedLengths`
  has both. The model follows the code, which warns once per length and forwards the report.
- A connection callback is taken without looking at its client id, so the loop can be connected before it is
  registered, and its mode write then names no client: `BridgePublication.ModeWriteWithoutId` gives the run, and
  `BridgePublication.PublishedBeforeConnect` the exact condition.

## Model

| member | source | states |
|---|---|---|
| `Framing.StripAtBoundary` | bluetooth-keyboard/runtime/duet5-hogp-bridge.py:36 | Removing control sequences from a text is removing them from the two halves of any cut that falls between two units of the scan |
| `Framing.StripInsideSequence` | bluetooth-keyboard/runtime/duet5-hogp-bridge.py:36 | A cut inside a control sequence leaves exactly one more ESC in the output than the uncut text has |
| `Framing.StripKeepsNewlines` | bluetooth-keyboard/runtime/duet5-hogp-bridge.py:130 | Removing control sequences never removes or adds a newline |
| `Framing.JoinSplit` | bluetooth-keyboard/runtime/duet5-hogp-bridge.py:132-133 | The parts a text is split into at a character join back to the text |
| `Framing.FramingExact` | bluetooth-keyboard/runtime/duet5-hogp-bridge.py:123-134 | The lines delivered plus the buffered rest equal the newline split of the sanitised whole stream if and only if no read cut a control sequence |
| `Framing.CutSequenceShows` | bluetooth-keyboard/runtime/duet5-hogp-bridge.py:123-134 | Reads that cut a control sequence: ESC and "[m" read one after the other stay in the buffer, though the stream as a whole shows nothing |
| `Framing.LineCount` | bluetooth-keyboard/runtime/duet5-hogp-bridge.py:123-134 | For every cutting of the stream, as many lines come out as newlines went in, and no line and no buffer holds a newline |
| `Framing.BtClientPty.Lines` | bluetooth-keyboard/runtime/duet5-hogp-bridge.py:123-134 | One call takes the buffer and the read text to the complete lines and the new buffer, as Feed gives them, and neither holds a newline or a carriage return; a read that would block or is empty changes nothing |
| `Framing.BtClientPty.Drain` | bluetooth-keyboard/runtime/duet5-hogp-bridge.py:123-134 | A series of calls from an empty buffer delivers the lines of the series and leaves its buffer |
| `TerminalText.SequenceIff` | bluetooth-keyboard/runtime/duet5-hogp-bridge.py:36 | The expression matches the first n characters exactly if they are ESC "[", parameters from 0-9;?, intermediates from space to "/", and one final from "@" to "~"; no other n matches then |
| `TerminalText.StripRemains` | bluetooth-keyboard/runtime/duet5-hogp-bridge.py:130 | What is left of a text is what remains when, from the left, every such sequence is taken out and every character at which none starts is kept, and nothing else is |
| `TerminalText.ReturnsDropped` | bluetooth-keyboard/runtime/duet5-hogp-bridge.py:130 | What replace leaves is the text between the carriage returns, put together |
| `TerminalText.NoReturns` | bluetooth-keyboard/runtime/duet5-hogp-bridge.py:123-134 | For every cutting into reads, no line and no buffer holds a carriage return, and the lines joined by newlines are what lies between the carriage returns of the stripped reads |
| `TerminalText.DecoratedLines` | bluetooth-keyboard/runtime/duet5-hogp-bridge.py:123-134 | The characters shown among control sequences and carriage returns come out line by line, in order, if no read cuts a sequence |
| `TerminalText.TerminalLines` | bluetooth-keyboard/runtime/duet5-hogp-bridge.py:123-134 | Lines that end in "\r\n", and the start of another, come out as they are, however the stream is cut into reads |
| `Messages.ParsePrintedValue` | bluetooth-keyboard/runtime/duet5-hogp-bridge.py:267-271 | A printed list of bytes is parsed back to those bytes, of any number and value |
| `Messages.NotificationAtPrinted` | bluetooth-keyboard/runtime/duet5-hogp-bridge.py:43-46 | At the head of a printed notification the expression finds its address, handle and value text |
| `Messages.ScanPrinted` | bluetooth-keyboard/runtime/duet5-hogp-bridge.py:37-46 | In a printed notification the four searches find the notification and nothing else: no device, no registration, no connection |
| `MessageForms.DeviceIff` | bluetooth-keyboard/runtime/duet5-hogp-bridge.py:37 | The device expression matches exactly the texts "[", 17 address characters, "]", white space, "Duet 5 KB", whatever follows, and reads the address |
| `MessageForms.RegistrationIff` | bluetooth-keyboard/runtime/duet5-hogp-bridge.py:38 | The registration expression matches exactly the texts of its form, with any digits and sign, and reads status and client id off them |
| `MessageForms.ConnectionIff` | bluetooth-keyboard/runtime/duet5-hogp-bridge.py:39-42 | The connection expression matches exactly the texts of its form and reads status, client id, flag and address off them |
| `MessageForms.NotificationIff` | bluetooth-keyboard/runtime/duet5-hogp-bridge.py:43-46 | The notification expression matches exactly the texts of its form and reads address, handle and the text up to the first "]" off them |
| `MessageForms.CharacterClasses` | bluetooth-keyboard/runtime/duet5-hogp-bridge.py:37-46 | The character classes of the expressions, character by character |
| `MessageForms.UpperAddress` | bluetooth-keyboard/runtime/duet5-hogp-bridge.py:210 | Upper case on the characters an address may have |
| `MessageForms.SearchFirst` | bluetooth-keyboard/runtime/duet5-hogp-bridge.py:208-262 | A search finds the match at the first position that has one, and nothing exactly if none has |
| `MessageForms.ScanBehind` | bluetooth-keyboard/runtime/duet5-hogp-bridge.py:208-262 | Text in front of a line at which no expression matches changes nothing the four searches find |
| `MessageForms.PromptSilent` | bluetooth-keyboard/runtime/duet5-hogp-bridge.py:37-46 | A prompt without "[" and "G" has no match in front of any line |
| `MessageForms.ScanDevice` | bluetooth-keyboard/runtime/duet5-hogp-bridge.py:37 | In a printed device, behind any silent prompt, the four searches find its address and nothing else |
| `MessageForms.ScanRegistration` | bluetooth-keyboard/runtime/duet5-hogp-bridge.py:38 | In a printed registration, behind any silent prompt, the four searches find its status and client id, negative or not, and nothing else |
| `MessageForms.ScanConnection` | bluetooth-keyboard/runtime/duet5-hogp-bridge.py:39-42 | In a printed callback, behind any silent prompt, the four searches find its four values and nothing else |
| `MessageForms.ScanNotification` | bluetooth-keyboard/runtime/duet5-hogp-bridge.py:43-46 | In a printed notification, behind any silent prompt, the four searches find it and nothing else |
| `MessageValues.ParseIntIff` | bluetooth-keyboard/runtime/duet5-hogp-bridge.py:269 | int() takes exactly an optional sign with digits, as their number |
| `MessageValues.ParseValueMeans` | bluetooth-keyboard/runtime/duet5-hogp-bridge.py:267-272 | A value text of any items between commas, blank or words in white space, is the bytes of its words in order if every word is a number from 0 to 255, and malformed otherwise |
| `MessageValues.EveryText` | bluetooth-keyboard/runtime/duet5-hogp-bridge.py:267-272 | Every text consists of such items |
| `ShortItems.ParsePrint` | bluetooth-keyboard/descriptor-comparison.txt:42 | Every list of short items is parsed back from its printed form |
| `ShortItems.PrintParse` | bluetooth-keyboard/descriptor-comparison.txt:8 | For every byte string, the items a parser reports print back to the bytes before the offset it reports, or to all of them |
| `ShortItems.CutInside` | bluetooth-keyboard/descriptor-comparison.txt:8 | A printed descriptor cut r bytes into item i, and not between items, is reported as incomplete at the header of item i, with the items before it |
| `ShortItems.CutParses` | bluetooth-keyboard/descriptor-comparison.txt:6-8 | A printed descriptor cut at n parses if and only if n is an item boundary; otherwise the error names the header of the item the cut went through |
| `ReportMap.PrefixEffect` | bluetooth-keyboard/patch/duet5-uhid-preload.c:18-34 | The 272 bytes before the contacts declare every report but Report ID 6 with its bit length, and leave one collection open |
| `ReportMap.ContactEffect` | bluetooth-keyboard/patch/duet5-uhid-preload.c:35-40 | One 79-byte contact collection adds 32 input bits to the report in force and leaves the nesting as it was |
| `ReportMap.TailEffect` | bluetooth-keyboard/patch/0001-FLOSS-HOGP-repair-Lenovo-Duet-5-KB-report-map.patch:50-54 | The 52-byte tail adds 32 input bits and closes one collection |
| `ReportMap.MapFamily` | bluetooth-keyboard/patch/duet5-uhid-preload.c:52-93 | For every k: 324 + 79k bytes that parse to the map's items, every collection closed at the end and none closed too early at any item, Report ID 6 with 32k + 32 input bits and every other report with a length free of k |
| `ReportMap.NeverBelowZero` | bluetooth-keyboard/descriptor-comparison.txt:42 | If interpreting a map ends well, no prefix of it closed more collections than were open |
| `ReportMap.TruncatedPrefix` | bluetooth-keyboard/patch/duet5-uhid-preload.c:17-50 | The map with k contacts starts with the 512 delivered bytes if and only if k >= 4 |
| `ReportMap.TruncatedIncomplete` | bluetooth-keyboard/descriptor-comparison.txt:6-8 | The delivered bytes parse up to the Usage Page at 509 and fail at the item header at offset 511 |
| `ReportMap.ResidualCompletes` | bluetooth-keyboard/patch/0001-FLOSS-HOGP-repair-Lenovo-Duet-5-KB-report-map.patch:33-54 | The delivered bytes followed by the 207-byte residual are the map with five contacts |
| `ReportMap.RepairedLength` | bluetooth-keyboard/patch/duet5-uhid-preload.c:52-93 | The four-contact map has 640 bytes |
| `ReportMapBytes.FamilySpelt` | bluetooth-keyboard/patch/duet5-uhid-preload.c:52-93 | The map with k contacts, byte by byte: the 272, k times the 79 and the 52 bytes of the C table |
| `ReportMapBytes.TablesSpelt` | bluetooth-keyboard/patch/duet5-uhid-preload.c:17-93 | The truncated and the repaired map are the bytes of the two C tables, and the residual completes the one as patch 0001 does |
| `InputLengths.ExpectedLengths` | bluetooth-keyboard/runtime/duet5-hogp-bridge.py:33-34 | For every handle and every number of contacts, the input length of the handle's report is the expected length, plus four bytes per contact beyond four for handle 76 |
| `InputLengths.InputReportsCovered` | bluetooth-keyboard/runtime/duet5-hogp-bridge.py:33 | A Report ID has an input report in the map if and only if some handle stands for it |
| `UhidCodec.Event` | bluetooth-keyboard/runtime/duet5-hogp-bridge.py:48-51 | An event is refused if and only if its payload is over the limit; otherwise it has 4376 bytes, its type and its payload |
| `UhidCodec.Create2RoundTrip` | bluetooth-keyboard/runtime/duet5-hogp-bridge.py:53-71 | Read at the offsets of the kernel structure, a create event gives back the five numbers and the three names, zero-padded or cut, and the descriptor without its padding, for every header and every descriptor of at most 4096 bytes |
| `UhidCodec.BridgeBytes` | bluetooth-keyboard/runtime/duet5-hogp-bridge.py:53-71 | The bytes of the bridge's own event around its names: type 11, size 640, bus 5, version 0x0111 and zeros, little-endian, then the descriptor and zeros |
| `UhidCodec.SendInput` | bluetooth-keyboard/runtime/duet5-hogp-bridge.py:74-77 | An input event is written if and only if id and value fit the 16-bit length, and then has 4376 bytes |
| `UhidCodec.SendInputDecodes` | bluetooth-keyboard/runtime/duet5-hogp-bridge.py:74-77 | An input event decodes to its report id and to as much of the value as the 4096-byte field holds beside it |
| `UhidCodec.SendInputBytes` | bluetooth-keyboard/runtime/duet5-hogp-bridge.py:74-77 | An input event byte by byte: type 12, the length, the report id, the value, and zeros |
| `UhidCodec.SendInputRoundTrip` | bluetooth-keyboard/runtime/duet5-hogp-bridge.py:74-77 | An input report survives the codec if and only if its value has at most 4095 bytes |
| `UhidShim.Write` | bluetooth-keyboard/patch/duet5-uhid-preload.c:103-136 | The interposed write passes on the event Rewrite gives, for every buffer, and never changes the caller's |
| `UhidShim.TestEvent` | bluetooth-keyboard/patch/duet5-uhid-preload.c:109-120 | The three comparisons on the raw buffer decide type, size field and leading descriptor bytes |
| `UhidShim.Repair` | bluetooth-keyboard/patch/duet5-uhid-preload.c:121-130 | The edited copy is the event with the new descriptor and size, and with nothing left of the old descriptor |
| `UhidShim.RewriteCommutes` | bluetooth-keyboard/patch/duet5-uhid-preload.c:116-131 | Rewriting a create event is creating it with the repaired descriptor if it carried the truncated one, and no change otherwise, for all headers and descriptors |
| `UhidShim.RewriteIdempotent` | bluetooth-keyboard/patch/duet5-uhid-preload.c:103-136 | A second rewrite changes nothing; events of any other type or length are never changed |
| `UhidShim.RewriteKeepsBridge` | bluetooth-keyboard/runtime/duet5-hogp-bridge.py:53-72 | The bridge's own create event exists only for 640-byte descriptors, passes the shim unchanged and decodes to its device and its descriptor |
| `UhidShim.RewriteKeepsInput` | bluetooth-keyboard/patch/duet5-uhid-preload.c:116-120 | Every input event passes the shim unchanged |
| `UhidShim.RewriteDecodes` | bluetooth-keyboard/patch/duet5-uhid-preload.c:121-131 | After the shim the same device is created, with the repaired descriptor where the truncated one was |
| `FlossPatches.HidService.Store` | bluetooth-keyboard/patch/0001-FLOSS-HOGP-repair-Lenovo-Duet-5-KB-report-map.patch:56-59 | The stored buffer is fresh and holds the received map followed by the residual, and the length is theirs |
| `FlossPatches.HidService.SaveReportMap` | bluetooth-keyboard/patch/0001-FLOSS-HOGP-repair-Lenovo-Duet-5-KB-report-map.patch:62-80 | The saved map is the one Save gives for the received map, in a fresh buffer, with its length |
| `FlossPatches.SaveRepairsOnlyTruncated` | bluetooth-keyboard/patch/0001-FLOSS-HOGP-repair-Lenovo-Duet-5-KB-report-map.patch:62-80 | The truncated map is saved as the five-contact map, every other map takes the path it had, and none loses a received byte |
| `FlossPatches.RecognitionStable` | bluetooth-keyboard/patch/0002-FLOSS-Duet5-suppress-native-reconnect.patch:19-29 | Patch 0002 recognises a saved map if and only if it recognises the received one |
| `FlossPatches.RecognitionStableUnderShim` | bluetooth-keyboard/patch/0002-FLOSS-Duet5-suppress-native-reconnect.patch:19-29 | Patch 0002 recognises the descriptor behind the shim if and only if it recognises the one in front of it |
| `FlossPatches.RecognisedFamily` | bluetooth-keyboard/patch/0002-FLOSS-Duet5-suppress-native-reconnect.patch:23-28 | Of the maps with k contacts exactly those with k >= 4 are recognised |
| `BridgeProcess.Bridge.constructor` | bluetooth-keyboard/runtime/duet5-hogp-bridge.py:168-196 | The loop starts in the initial state, with one command queued and an empty line buffer |
| `BridgeProcess.Bridge.Enqueue` | bluetooth-keyboard/runtime/duet5-hogp-bridge.py:182-183 | A command is appended to the queue and nothing else changes |
| `BridgeProcess.Bridge.DeviceFound` | bluetooth-keyboard/runtime/duet5-hogp-bridge.py:208-220 | A found device takes the fields where OnFound takes the state |
| `BridgeProcess.Bridge.ClientRegistered` | bluetooth-keyboard/runtime/duet5-hogp-bridge.py:222-237 | A registration line takes the fields where OnRegistered takes the state, including both ways of raising |
| `BridgeProcess.Bridge.ConnectionChanged` | bluetooth-keyboard/runtime/duet5-hogp-bridge.py:239-258 | A connection callback takes the fields where OnConnection takes the state |
| `BridgeProcess.Bridge.NextAddress` | bluetooth-keyboard/runtime/duet5-hogp-bridge.py:257-258 | The index moves on by one, around the end of the list, and the address with it |
| `BridgeProcess.Bridge.Notification` | bluetooth-keyboard/runtime/duet5-hogp-bridge.py:262-288 | A notification takes the fields where OnNotified takes the state: ignored, malformed, forwarded or raised |
| `BridgeProcess.Bridge.HandleLine` | bluetooth-keyboard/runtime/duet5-hogp-bridge.py:204-288 | One line is its up to four actions in order, cut short by an exception |
| `BridgeProcess.Bridge.SetUpNotifications` | bluetooth-keyboard/runtime/duet5-hogp-bridge.py:296-299 | The batch of five is queued exactly when OnSetUp queues it, in handle order |
| `BridgeProcess.Bridge.WriteInputMode` | bluetooth-keyboard/runtime/duet5-hogp-bridge.py:301-316 | The mode write is issued exactly when OnWriteMode issues it; failing, it stops the loop |
| `BridgeProcess.Bridge.RetryConnect` | bluetooth-keyboard/runtime/duet5-hogp-bridge.py:319-323 | A retry takes the fields where OnRetry takes the state |
| `BridgeProcess.Bridge.SendNext` | bluetooth-keyboard/runtime/duet5-hogp-bridge.py:325-327 | The head of the queue is sent exactly when OnSend sends it; an exception loses it |
| `BridgeProcess.Bridge.CloseIteration` | bluetooth-keyboard/runtime/duet5-hogp-bridge.py:296-330 | The end of an iteration is its five actions in order, cut short by an exception |
| `BridgeProcess.Bridge.Iterate` | bluetooth-keyboard/runtime/duet5-hogp-bridge.py:198-330 | An iteration on read text takes fields and line buffer where Feed and the actions of the framed lines take them |
| `BridgeProcess.Bridge.Run` | bluetooth-keyboard/runtime/duet5-hogp-bridge.py:198-330 | Any number of iterations takes the fields where RunText takes the state |
| `TextRuns.RunTextIsPerform` | bluetooth-keyboard/runtime/duet5-hogp-bridge.py:198-330 | Every run on text is a run of actions, so the lemmas about all runs of actions apply to it |
| `TextRuns.TextIsHeard` | bluetooth-keyboard/runtime/duet5-hogp-bridge.py:123-262 | Over any iterations and any chunks that cut no control sequence, the lines the loop handles are one by one the devices, registrations, callbacks and notifications printed, with the values printed; other lines are searched as they stand |
| `LineEffects.RegistrationRead` | bluetooth-keyboard/runtime/duet5-hogp-bridge.py:222-230 | The text of a successful registration leaves an unregistered loop registered with the id printed, and published at once |
| `LineEffects.CallbackRead` | bluetooth-keyboard/runtime/duet5-hogp-bridge.py:239-258 | The text of a callback for a known address connects the loop to it, or, if it failed and is the current one, disconnects it |
| `BridgeInputs.CallbacksHeard` | bluetooth-keyboard/runtime/duet5-hogp-bridge.py:239-258 | On every run the callbacks acted on are exactly the connection lines a running loop reads for addresses in its list, in order, as a success exactly for "true" with status 0 |
| `BridgeInputs.ConnectedMeans` | bluetooth-keyboard/runtime/duet5-hogp-bridge.py:239-258 | On every run the loop is connected if and only if, of the callbacks it read, the latest success came from the current address, which has not failed since |
| `BridgeInputs.CallbackMeans` | bluetooth-keyboard/runtime/duet5-hogp-bridge.py:239-258 | At any moment of any run: an unknown address changes nothing; a success connects to it with both flags down; a failure of the current address disconnects and moves to the next; any other failure changes nothing |
| `BridgeInputs.AddressesFound` | bluetooth-keyboard/runtime/duet5-hogp-bridge.py:208-211 | From any state the address list grows by exactly the devices found while the loop runs, each once, in order |
| `BridgeInputs.AddressesMean` | bluetooth-keyboard/runtime/duet5-hogp-bridge.py:168-211 | On every run an address is known if and only if it was given or found |
| `BridgeInputs.RegisteredMeans` | bluetooth-keyboard/runtime/duet5-hogp-bridge.py:222-230 | On every run the loop is registered if and only if it read a successful registration, and holds the client id of the first |
| `BridgeInputs.StopsExactly` | bluetooth-keyboard/runtime/duet5-hogp-bridge.py:198-330 | A running loop is stopped by a failed registration or publication, a value of more than 65534 bytes or a failed write of one, a failed mode write or send, and the exit of btclient, and by nothing else |
| `BridgeInputs.NotificationMeans` | bluetooth-keyboard/runtime/duet5-hogp-bridge.py:262-282 | A notification from another address, of another handle or malformed changes nothing; any other value is written as one event whatever its length, and an unexpected length is only warned about |
| `BridgeReports.TicksGoOn` | bluetooth-keyboard/runtime/duet5-hogp-bridge.py:198-330 | Whatever lines are read, while every call succeeds only a failed registration or an overlong value stops a run |
| `BridgeStart.CommandsQueued` | bluetooth-keyboard/runtime/duet5-hogp-bridge.py:182-323 | On every run the commands queued are the first one and exactly those the actions of the running loop queue, in order |
| `BridgeStart.StartsOnce` | bluetooth-keyboard/runtime/duet5-hogp-bridge.py:193-236 | On every run: the bonded devices are listed first and once unless an address was given, the client registration is queued once, when an address is known, and the three settings once, in order, when registered and published |
| `BridgeStart.RetriesAfterRequest` | bluetooth-keyboard/runtime/duet5-hogp-bridge.py:235-237 | The registration queues a connection request to the current address last, and whatever follows, no retry comes within six seconds of that reading |
| `BridgeSafety.AddressTracking` | bluetooth-keyboard/runtime/duet5-hogp-bridge.py:208-258 | On every run: no duplicate address, the index points at the current address, and connected holds if and only if the current address had a successful callback with no other success and no failure of its own since |
| `BridgeSafety.LinkPeerMeans` | bluetooth-keyboard/runtime/duet5-hogp-bridge.py:244-258 | The connected peer read off a log is the one with a successful callback and neither another success nor its own failure behind it |
| `BridgeSafety.QueueBound` | bluetooth-keyboard/runtime/duet5-hogp-bridge.py:182-327 | On every run the queue length, plus one before an address is known, plus four before registration, is at most nine |
| `BridgeSafety.QueueBoundTight` | bluetooth-keyboard/runtime/duet5-hogp-bridge.py:222-237 | The bound is reached: some run has nine commands queued |
| `BridgeSafety.FifoOrder` | bluetooth-keyboard/runtime/duet5-hogp-bridge.py:325-327 | On every run the sent commands are a prefix of the queued ones, and unless the loop has stopped the queue is exactly the rest |
| `BridgeModes.ModeWriteOrdering` | bluetooth-keyboard/runtime/duet5-hogp-bridge.py:239-316 | On every run each mode write follows its peer's successful callback with no other success or mode write between; between them the five registrations for that peer and no others were queued, in order, and each was sent behind its queueing; and nothing queued before the write is still unsent |
| `BridgeModes.OneBatchPerCallback` | bluetooth-keyboard/runtime/duet5-hogp-bridge.py:296-316 | At every moment of every run, since the latest successful callback at most one batch of that peer's five registrations was queued, in order, and at most one mode write issued |
| `BridgeModes.FlagsMean` | bluetooth-keyboard/runtime/duet5-hogp-bridge.py:244-316 | On every run the flags of a connected loop say exactly whether the batch for the current address was queued and whether the mode was written since the latest success: once, or not at all |
| `BridgeModes.LawfulWrite` | bluetooth-keyboard/runtime/duet5-hogp-bridge.py:301-316 | For any lawful log, the position of the callback that a mode write belongs to, with the batch queued and then sent in between |
| `BridgeTiming.Pacing` | bluetooth-keyboard/runtime/duet5-hogp-bridge.py:319-327 | On every run, under any clock, m + 1 successive sends span at least 0.8m seconds and successive retries are more than 6 seconds apart |
| `BridgeTiming.WindowBound` | bluetooth-keyboard/runtime/duet5-hogp-bridge.py:325-327 | Sends that lie within w seconds number at most floor(w / 0.8) + 1 |
| `BridgeTiming.ModeWriteDeadline` | bluetooth-keyboard/runtime/duet5-hogp-bridge.py:198-327 | From any reachable connected state, without callbacks or exceptions and with readings at most D apart, a reading more than (q + 5)(0.8 + D) seconds on (q + 9 before registration) finds the mode written exactly once since the latest success, and if it was not written before, at most D after that bound |
| `RetryTiming.RetryDeadline` | bluetooth-keyboard/runtime/duet5-hogp-bridge.py:319-323 | From any reachable registered state with an address and no connection, with readings at most D apart, no success and no exception, a reading more than q(0.8 + D) seconds on and six seconds after the latest attempt finds a connection tried again, at most D after that bound |
| `BridgePublication.PublishedBeforeConnect` | bluetooth-keyboard/runtime/duet5-hogp-bridge.py:227-237 | On every run no connection request is queued or sent before the client id is published, only the id the loop holds is ever published, and a mode write names that id if and only if it was published before |
| `BridgePublication.ModeWriteWithoutId` | bluetooth-keyboard/runtime/duet5-hogp-bridge.py:301-316 | For every peer there is a run in which it is written to as client None, connected before the registration is answered |
| `BridgePublication.DirectPublishesNothing` | bluetooth-keyboard/bridge/duet5-hogp-bridge-direct.py:206-220 | No run of the direct variant publishes an id |
| `RetryRotation.ReplayCounts` | bluetooth-keyboard/runtime/duet5-hogp-bridge.py:255-258 | The index is the starting index plus retries plus failing callbacks for the current address, modulo the number of addresses |
| `RetryRotation.NoCallbacksNoDrops` | bluetooth-keyboard/runtime/duet5-hogp-bridge.py:319-323 | Without callbacks only retries move the index |
| `RetryRotation.CoversByTwoIff` | bluetooth-keyboard/runtime/duet5-hogp-bridge.py:319-323 | Two places per retry: n retries cover all n addresses if and only if n is odd |
| `RetryRotation.RetryRotates` | bluetooth-keyboard/runtime/duet5-hogp-bridge.py:319-323 | On every run from any reachable state with n addresses and no success: with no drops the first n retries try every address exactly once; with one drop per retry they cover every address if and only if n is odd, and if n is even the starting address is never tried |
| `RetryRotation.UndisturbedRotation` | bluetooth-keyboard/runtime/duet5-hogp-bridge.py:319-323 | On every run, further actions without callbacks or new addresses retry every address exactly once in n retries |
| `RetryRotation.OneOfTwoNeverTried` | bluetooth-keyboard/runtime/duet5-hogp-bridge.py:255-258 | The failing schedule happens: for any number m, a run with two addresses retries m times, failing each time, and never tries the first |
| `EndToEnd.TextToUhid` | bluetooth-keyboard/runtime/duet5-hogp-bridge.py:123-288 | For any lines printed but callbacks, finished or not, any chunks that cut no control sequence and any iterations of a connected loop, the events written decode to exactly the connected peer's input notifications, in order, with report id and value, up to where the loop stops; and while every call succeeds and no registration fails it does not stop |
| `EndToEnd.StatsCountReports` | bluetooth-keyboard/runtime/duet5-hogp-bridge.py:281-282 | On every run each handle's counter is the number of written input events with its report id |
| `GattFilter.HotfixOpen` | bluetooth-keyboard/patch/duet5-gatt-filter-rpa-hotfix.c:54-72 | The two assignments to block amount to: with an id known the other natives everywhere and everyone else on the legacy address, without one everybody on it |
| `GattFilter.PublishedIdRead` | bluetooth-keyboard/patch/duet5-gatt-filter-rpa-hotfix.c:28-36 | A published id is read back as itself if and only if a C int holds it |
| `GattFilter.BridgePasses` | bluetooth-keyboard/patch/duet5-gatt-filter-rpa-hotfix.c:61-72 | The bridge's client passes the filter on every address if and only if its id is not negative |
| `GattFilter.HotfixRefinesOld` | bluetooth-keyboard/patch/duet5-gatt-filter.c:46-61 | The hotfix blocks what the old filter blocked and beyond that exactly the other natives once an id is known; the two agree on every open if and only if no id is known |
| `GattFilter.OnlyLegacyBlocked` | bluetooth-keyboard/patch/duet5-gatt-filter-rpa-hotfix.c:16-36 | Without a file or with an empty one exactly the address that starts cc:59:35:9f is blocked; on any other, only one of the five natives, and only while an id is known |
| `GattFilter.SmallIdPasses` | bluetooth-keyboard/patch/duet5-gatt-filter-rpa-hotfix.c:61-72 | While the file holds an id of one byte, that client passes on every address and every other native is blocked on every address |
| `GattFilter.StrtolReads` | bluetooth-keyboard/patch/duet5-gatt-filter-rpa-hotfix.c:35 | White space of C, an optional sign and digits are read as their number, saturated, whatever follows |
| `GattFilter.FileRead` | bluetooth-keyboard/patch/duet5-gatt-filter-rpa-hotfix.c:28-36 | A file of at most 31 characters is read in full, and its number taken modulo two to the 32 as a C int |
| `GattFilter.FileCut` | bluetooth-keyboard/patch/duet5-gatt-filter-rpa-hotfix.c:29-32 | Of a longer file the first 31 characters count |
| `Watchdog.SweepLoop` | bluetooth-keyboard/run-duet5-bridge.sh:33-42 | The loop over the list issues every id but the bridge's own, in order |
| `Watchdog.SweepTurns` | bluetooth-keyboard/run-duet5-bridge.sh:33-42 | Uninterrupted, the steps of the protocol issue what the shell loop issues, call by call |
| `Watchdog.NeverUnregistersBridge` | bluetooth-keyboard/run-duet5-bridge.sh:13-47 | In every interleaving, with a crash anywhere, no UnregisterClient names the live bridge's client, which stays registered while the bridge lives |
| `Watchdog.FileHoldsWholeId` | bluetooth-keyboard/runtime/duet5-hogp-bridge.py:79-89 | In every interleaving the id file is absent or holds the complete id of the latest bridge |
| `Watchdog.RoundsAreComplete` | bluetooth-keyboard/run-duet5-bridge.sh:33-42 | Every finished round of the wrapper had read some id and unregistered exactly the other ids of the list |
| `Watchdog.ServingBridgePasses` | bluetooth-keyboard/patch/duet5-gatt-filter-rpa-hotfix.c:61-72 | Whenever a bridge has published its id and not begun to leave, that id is in the file, the hotfix lets its client through on every address and blocks every other native on every address |
| `Watchdog.SweepBesideServing` | bluetooth-keyboard/run-duet5-bridge.sh:17-44 | For every id there is a run in which the wrapper sweeps beside a serving bridge with that id |
| `Watchdog.RoundHappens` | bluetooth-keyboard/run-duet5-bridge.sh:17-44 | Beside a serving bridge with a natural id, ten steps of the wrapper from its check unregister every native client but the bridge, and nobody else |
| `Watchdog.NativeSwept` | bluetooth-keyboard/run-duet5-bridge.sh:33-42 | A run in which a native client registers beside a serving bridge and the next round unregisters it |
| `Watchdog.NativeIds` | bluetooth-keyboard/run-duet5-bridge.sh:5 | The wrapper's list is the filter's set of natives |
| `Watchdog.ClosedLeavesNoFile` | bluetooth-keyboard/runtime/duet5-hogp-bridge.py:332-345 | In every interleaving, a bridge that has finished its clean-up has left no id file |
| `Watchdog.LeavesClean` | bluetooth-keyboard/runtime/duet5-hogp-bridge.py:79-89 | Whatever it is doing, a bridge that leaves unlinks the id file, and the temporary file if it was writing, and is gone; no other file goes and no client changes |
| `Watchdog.NoTemporaryLeft` | bluetooth-keyboard/runtime/duet5-hogp-bridge.py:79-89 | In every interleaving without a crash, a temporary file is there only while the live bridge writes it |
| `Watchdog.CrashLeavesTemporary` | bluetooth-keyboard/runtime/duet5-hogp-bridge.py:79-89 | After a crash it may stay: a run leaves the temporary file of a bridge that died writing |
| `Watchdog.ZombiePolls` | bluetooth-keyboard/run-duet5-bridge.sh:17-31 | While kill -0 still finds the dead bridge and there is no file the wrapper polls on; once it does not, it waits |
| `Watchdog.WaitRespawns` | bluetooth-keyboard/run-duet5-bridge.sh:13-16 | From its wait, with the bridge dead, three steps of the wrapper remove the file and start a new bridge |
| `Watchdog.Respawns` | bluetooth-keyboard/run-duet5-bridge.sh:13-47 | From every reachable state with the bridge dead, at most thirteen steps of the wrapper start a new one, with no id file |
| `JoinedSystem.RequestsMeetFilter` | bluetooth-keyboard/runtime/duet5-hogp-bridge.py:227-237 | In every interleaving of wrapper, loop, publication and crashes: at any move in which the loop queues or sends a client-connect, the file holds its client id before and after, and the hotfix passes that client on every address and blocks every other native |
| `JoinedSystem.AdmittedUntilLeaving` | bluetooth-keyboard/patch/duet5-gatt-filter-rpa-hotfix.c:61-72 | In every interleaving the same holds from the first such request until the bridge starts to leave, so also when the request reaches the filter later |
| `JoinedSystem.LoopNeverUnregistered` | bluetooth-keyboard/run-duet5-bridge.sh:33-42 | In every interleaving no UnregisterClient has named the client of the bridge then alive, and the id a serving loop holds is known to Floss |
| `JoinedSystem.WorldIsRun` | bluetooth-keyboard/run-duet5-bridge.sh:13-47 | Every run of the joined system is a run of the protocol |
| `JoinedSystem.LoopIsRun` | bluetooth-keyboard/runtime/duet5-hogp-bridge.py:198-330 | Every state of the loop in the joined system is reached by a run of the loop alone, so the lemmas about its runs apply |
| `JoinedSystem.RequestIsSent` | bluetooth-keyboard/runtime/duet5-hogp-bridge.py:319-327 | For every peer and id some run of the joined system sends a client-connect |
| `JoinedSystem.LoopLeaves` | bluetooth-keyboard/runtime/duet5-hogp-bridge.py:332-345 | Whenever the loop ends, the id file is unlinked and the bridge gone, and the loop has done nothing more |
| `Decimal.RoundTrip` | bluetooth-keyboard/runtime/duet5-hogp-bridge.py:230 | The decimal text of a natural number denotes that number |
| `Decimal.Figures` | bluetooth-keyboard/runtime/duet5-hogp-bridge.py:230 | The figures and their places, on a number that has them all |
| `Decimal.PrintInjective` | bluetooth-keyboard/run-duet5-bridge.sh:35 | Two ids with the same decimal text are the same id, so the shell may compare text |
| `ConfigRewrite.ReplaceFirst` | bluetooth-keyboard/install-live-bridge.sh:42 | sed keeps the text up to the first old name, puts the new name in its place, and goes on behind it |
| `ConfigRewrite.NothingLeft` | bluetooth-keyboard/install-live-bridge.sh:42 | What sed leaves never contains the old name: the new name makes no new match, whatever surrounds it |
| `ConfigRewrite.NeedleKept` | bluetooth-keyboard/install-live-bridge.sh:41-42 | A line names the filter after sed if and only if it did before |
| `ConfigRewrite.InsertPreload` | bluetooth-keyboard/install-live-bridge.sh:45-54 | The awk loop with its flag puts the preload line before the first exec line, or at the end |
| `ConfigRewrite.Grep` | bluetooth-keyboard/install-live-bridge.sh:41 | grep -q answers whether some line contains the text |
| `ConfigRewrite.Install` | bluetooth-keyboard/install-live-bridge.sh:41-55 | grep, sed and awk together compute Rewrite |
| `ConfigRewrite.RewriteIdempotent` | bluetooth-keyboard/install-live-bridge.sh:41-55 | Installing twice gives the same file as installing once, for every list of lines |
| `ConfigRewrite.PreloadPlaced` | bluetooth-keyboard/install-live-bridge.sh:45-54 | In a file that does not name the filter, no exec line precedes the preload line, the next line is the first exec line if there is one, and deleting the line restores the file |
| `ConfigRewrite.OldGone` | bluetooth-keyboard/install-live-bridge.sh:41-55 | No line of the rewritten file contains the old library's file name |
| `ConfigRewrite.HotfixNamed` | bluetooth-keyboard/install-live-bridge.sh:41-55 | The rewritten file names the hotfix unless the file named the filter but neither library by its file name; exactly then it does not |

## Left out

- The pseudo-terminal, `select`, D-Bus, `/dev/uhid`, the sysfs scan of `find_created_hid`, `dlsym` and
  `subprocess`: their answers are parameters and their effects log entries.
- Decoding UTF-8 with replacement characters: chunks are decoded text, so a read that cuts a multi-byte
  character is not modelled.
- Python's `int()` beyond signed ASCII digits (underscores, other scripts' digits), `\s`, `strip()` and `upper()`
  beyond ASCII.
- Messages.PrintReport and the print functions of MessageForms, the texts btclient prints, are assumptions: btclient
  is not part of this repository; the forms are those the bridge's expressions accept.
- SHA-256: matching the digest is modelled as being the one 512-byte map it was taken from.
- HID long items, usages, units, physical ranges and the rest of hid-multitouch: items are framed and printed in
  full, but only Report Size, Count and ID, Push, Pop, collections and the data main items are interpreted.
- Wrapper termination by a signal, more than one wrapper, a wrapper whose `rm` fails, and Floss giving one bridge
  process several ids: outside the protocol's assumptions. Floss is also taken not to hand out an id in use.
- JoinedSystem.Apply: takes it that btclient reports the id Floss assigned, and not before; a report with another id
  or of another client's registration is not modelled.
- The bridge's clean-up after its loop beyond unlinking the id file: the disconnect command, `quit`, UHID_DESTROY,
  and the file with the active address.
- The sleeps, the messages printed, and the `first live report` notice.
- BridgeLoop.Command stands for command lines by their meaning; their text is not rendered.
- GattFilter.HotfixOpen: models the decision, not the log line; `filter_log` on a null address with the block
  branch taken is not modelled.
- UhidShim.Write: the return value and errno of the real `write`, and a missing `dlsym` result, are not modelled.
- FlossPatches.HidService.SaveReportMap: the suffix for other devices is a parameter; freeing an earlier map and
  the battery-service hunk of patch 0002 are not modelled.
- ConfigRewrite.Install: works on the list of lines; whether the last line ends in a newline, the backups and the
  copying of files are not modelled.
- RetryRotation.RetryRotates: covers the two regular schedules, no failure or exactly one between retries;
  for irregular ones `RetryRotation.ReplayCounts` gives the index after any log.
- The deploy, uninstall and mode scripts, and the notes on the power button and suspend: plumbing.
