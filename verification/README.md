# Verified model of an IoT gateway

This project models the parts of the gateway whose correctness is not visible
in any one function, and proves what they promise: the checksums and frames of
the Modbus line, the streaming digests, the rule engine, the request protocol
towards the server, the sampling scheduler and its reports, the MQTT packets and
the session of the NB-IoT modem, and the JSON messages of the server link.
`dafny verify dfyconfig.toml` checks everything.

## Layout

| file | what it models |
|---|---|
| `Arithmetic.dfy` | facts about products, quotients and remainders |
| `Wrappers.dfy` | results that may be absent, or an error |
| `Bytes.dfy` | bytes, 32-bit words, and the integers they encode |
| `Blocks.dfy` | digests over 64-byte blocks, fed in chunks of any size: the reasoning the three digests share |
| `Crc.dfy` | the CRC-16 generators, specified as bit-at-a-time polynomial division |
| `CrcErrors.dfy` | after how many steps the CRC register comes back, and which few flipped bits it therefore detects |
| `Modbus.dfy` | request and response frames, the accumulation of a reply, and reading holding registers end to end |
| `Sha256.dfy`, `Sha1.dfy`, `Md5.dfy` | the digests, against FIPS 180-4 (sections 5.1.1, 6.1.2, 6.2) and RFC 1321 (section 3) |
| `Abc.dfy`, `Sha256Example.dfy`, `Sha1Example.dfy`, `Md5Example.dfy` | the digests of "abc" that the standards give, step by step |
| `Rules.dfy` | conditions, actions, rules and the rule manager |
| `Multimap.dfy` | a multimap ordered by time |
| `Reports.dfy` | the bounded store of samples, its queries, and reporting over whole runs |
| `Scheduler.dfy` | the earliest-deadline scheduler of a device, with starting, stopping, creating and destroying endpoints |
| `Linker.dfy` | the request, confirm and retransmission protocol: what every run keeps |
| `Liveness.dfy` | the same protocol: how much work there is, and when it is done |
| `Fairness.dfy` | the same protocol: endless runs, and the end of each single request |
| `NbIot.dfy` | the MQTT packets of the modem, decoded by MQTT V3.1 (sections 2.1, 3.1, 3.3), and its session |
| `Rcs.dfy` | the parser and the printer of server messages, and the incremental payload builders |

Objects that the gateway updates in place are classes here, and their loops are
loops with invariants. Each method is proved against a specification function
of its old state, and the properties below are then lemmas about these
functions: for every input, every run, and every way a message is cut into
chunks. Clocks, answers of devices, what a link does with a message, and what a
read of the serial port yields are parameters.

## What the proofs found

The code meets a promise only under a condition in these places. Each condition
is exact.

* The request protocol (lib/server_linker.cpp:1441-1491). `OnProduce` returns
  true also for a request it has just put into the request map, and
  lib/active_object.cpp:324-328 then deletes that request. The protocol is
  modelled as it is meant, with the map owning the request; `DanglingIff` states
  exactly when the code as written leaves the map with a reference to a deleted
  request, and `WrittenIff` that a run as written is free of uses of deleted
  requests if and only if no confirm meets a request in the map and no expiry an
  expired one; with confirms on, already the first answered request is such a use
  (`AnswerUsesDeleted`). Nothing in the gateway turns confirms on
  (lib/server_linker.cpp:159), and without them every run is free of such uses.
* A request is lost without any trace when another one is sent that expires in
  the same microsecond, because the map is assigned by key
  (lib/server_linker.cpp:1480). `OrphanedIff` gives the condition, and the model
  keeps such requests in a place of their own instead of assuming distinct times.
* A message with several rules prints them under the title of the endpoint data
  (lib/rcs_message.cpp:402), so that they are lost, and come back as endpoint
  data if there is none (`RoundTripIff`, `RulesLost`).
* A single list item that is not an object does not survive printing and parsing
  (lib/rcs_message.cpp:101-117), and property fields of zero come back as the default.
* Of the packets whose sizes fit 16 bits, a PUBLISH packet is readable exactly up to a
  remaining length of 16383; from there on the second length byte is cut off (lib/device_nbiotm.cpp:800-814). A
  CONNECT packet is readable exactly up to a client id of 241 bytes; names are
  limited to 64 bytes elsewhere (lib/object.cpp:172), which is within the bound.
* SHA-256 writes only 32 length bits (lib/sha256.cpp:98-115): what it feeds is the
  standard's padded message exactly for messages below 2^29 bytes, and for these it
  is the standard's digest. Above that the padded messages differ; that their digests
  do is not claimed.
* The MD5 loop guard adds a block to an unsigned index (lib/md5.cpp:273): it is the
  intended guard exactly when no chunk comes within a block of 2^32 bytes, and for
  any other chunk it never fails, so that the loop does not end. Lengths are 32-bit
  numbers: of a longer text only the length modulo 2^32 is digested.
* Enforcing the actions of a satisfied rule is meant to report only changes, but
  compares texts (lib/rule.cpp:297-300): an action "on" is understood, the actuator
  then shows "1", and every further update sends an event again
  (`EnforcingOnIsLoud`). `EnforcingIsSilentIff` says exactly which lists of actions
  are silent.
* A report carries at most a hundred samples (lib/endpoint.cpp:411-424,
  lib/endpoint_valuemap.cpp:12-22). `DroppedIff` says exactly when one drops some,
  namely all but the newest hundred of its period. Besides these, exactly the samples
  that come in stamped before the last report, and those that a full store evicts
  unreported, go missing (`ReportedOnceOrTwice`): what no report has carried by a later
  second appears in none (`NeverReportedLater`).
* Stopping an endpoint that is not started takes away a schedule entry that a
  destroyed endpoint of the same id left behind, and a new endpoint of that id is
  served for such entries too (lib/device.cpp:241-327); the scheduler's invariant
  counts them.

## Model

| member | source | states |
|---|---|---|
| Crc.ReflectedTaps | lib/modbus.cpp:189-202 | one step of the reflected register is division by 0xA001: the polynomial is subtracted exactly when the message bit differs from the outgoing bit |
| Crc.ForwardTaps | lib/crc_df868.cpp:42-57 | the same for the forward register and 0x8005 |
| Crc.ReflectedTableEntry | lib/modbus.cpp:152-187 | every one of the 256 table entries is eight steps of the reflected register from zero |
| Crc.ForwardTableEntry | lib/crc_df868.cpp:10-38 | every one of the 256 table entries is eight steps of the forward register from zero |
| Crc.ReflectedTableStep | lib/modbus.cpp:189-202 | a byte shift and one table lookup are eight register steps, for every register and byte |
| Crc.ForwardTableStep | lib/crc_df868.cpp:42-57 | the same for the forward register |
| Crc.Crc16 | lib/modbus.cpp:189-202 | the loop over a buffer yields the bit-at-a-time remainder of its first bytes, for any length |
| Crc.Crc16ShortCounter | lib/crc16.cpp:46-60 | the copy with a 16-bit counter yields the same remainder |
| Crc.ComputeCrc16 | lib/crc_df868.cpp:42-57 | the forward loop yields the forward remainder, starting from zero |
| Crc.ReflectedResidue | lib/modbus.cpp:81-87 | two bytes after a message make the remainder zero if and only if they are its CRC, low byte first |
| Crc.ForwardResidue | lib/crc_df868.cpp:42-57 | the same for the forward CRC, high byte first |
| Crc.ReflectedLinear | lib/modbus.cpp:189-202 | the remainder of a corrupted message differs by the remainder of the error pattern |
| Crc.BurstChangesCrc | lib/modbus.cpp:189-202 | every error burst of at most 16 bits, anywhere in any message, changes the remainder |
| Crc.BitParity | lib/modbus.cpp:189-202 | the register's parity takes in exactly the parity of the message bits |
| Crc.OddChangesCrc | lib/modbus.cpp:189-202 | every error of an odd number of bits, anywhere in any message, changes the remainder |
| Crc.CrcOfDigits | lib/modbus.cpp:189-202 | the digits 1 to 9 have the check values 0x4B37 (reflected, from 0xFFFF) and 0xFEE8 (forward, from zero) by which the two generators are known |
| CrcErrors.PeriodIff | lib/modbus.cpp:189-202 | started with a single one and fed zeros, the register is back at it after k steps if and only if 32767 divides k |
| CrcErrors.TwoFlipsHiddenIff | lib/modbus.cpp:189-202 | two flipped bits, anywhere in any message, leave the remainder as it is if and only if 32767 divides their distance |
| CrcErrors.FewFlipsChangeCrc | lib/modbus.cpp:189-202 | flipping any one, two or three bits of any message below 4096 bytes changes the remainder, however far apart they are |
| CrcErrors.FourFlipsHidden | lib/modbus.cpp:189-202 | four need not: those of the polynomial leave the remainder of every message as it is, wherever they fall |
| Modbus.RequestFrame.constructor | lib/modbus.cpp:9-42 | the frame, from which a slave understands device, function code, address and value as given, and the size of the reply to expect |
| Modbus.RequestUnderstood | lib/modbus.cpp:14-23 | a slave that reads two numbers, high byte first, from eight bytes with a right CRC gets from every request the very address and value that were asked for |
| Modbus.OnlyRequestsUnderstood | lib/modbus.cpp:14-23 | and nothing but a request is understood |
| Modbus.RequestExample | lib/device_a3300.cpp:159 | the eight bytes of the request for nine registers from address 100 |
| Modbus.ResponseFrame.constructor | lib/modbus.cpp:59-113 | a frame is valid if and only if length, function code and the CRC over the length it names all hold |
| Modbus.ResponseFrame.ReadHoldingRegisters | lib/modbus.cpp:115-135 | succeeds if and only if function code and byte count agree; decodes all registers and touches nothing else |
| Modbus.EncodeDecode | lib/modbus.cpp:129-132 | encoding the decoded registers gives the payload bytes back |
| Modbus.DecodeEncode | lib/modbus.cpp:129-132 | decoding encoded registers gives them back, for every register list |
| Modbus.DecodeSpells | lib/modbus.cpp:129-132 | each decoded register is the number that its two bytes spell, high byte first |
| Modbus.AcceptedIffReply | lib/modbus.cpp:59-135 | a frame is accepted if and only if it is the correct reply of some device for some registers |
| Modbus.ReplyRoundTrip | lib/device_modbus.cpp:139-171 | the correct reply is accepted and decodes to the registers that were sent |
| Modbus.AnswerCarries | lib/device_modbus.cpp:139-171 | from end to end: whatever a slave holds, its answer to the gateway's request is accepted, and decodes to exactly the registers from the address asked for |
| Modbus.BurstRejected | lib/device_modbus.cpp:139-171 | a correct reply hit by any error burst of at most 16 bits, in any of its fields, is refused |
| Modbus.SingleByteRejected | lib/device_modbus.cpp:139-171 | changing any one byte of a correct reply to any other value makes the gateway refuse it |
| Modbus.OddRejected | lib/device_modbus.cpp:139-171 | flipping an odd number of bits of a correct reply, wherever they are, makes the gateway refuse it |
| Modbus.FewFlipsRejected | lib/device_modbus.cpp:139-171 | flipping any one, two or three bits of a correct reply, wherever they are, makes the gateway refuse it |
| Modbus.EchoBurstRejected | lib/modbus.cpp:93-110 | the same for the echo of a written register |
| Modbus.AcceptedIffEcho | lib/modbus.cpp:93-110 | eight bytes are an acceptable echo if and only if they are the echo of some write by some device |
| Modbus.PassesIffEcho | lib/modbus.cpp:93-110 | the checks on a received frame are passed exactly by these |
| Modbus.ReceivedPieces | lib/device_modbus.cpp:74-86 | what is received does not depend on the pieces in which it comes, nor on reads that fail in between |
| Modbus.RequestAndWait | lib/device_modbus.cpp:62-100 | whatever the pieces in which bytes arrive, and whatever reads fail, the reply is the first bytes received; it fails if and only if the write failed or too few arrived |
| Modbus.ReadHoldingRegisters | lib/device_modbus.cpp:139-171 | end to end: a slave understands the address and the count asked for; the read succeeds if and only if the line delivers an acceptable reply, and then yields its registers |
| Modbus.WriteRegister | lib/device_modbus.cpp:173-208 | a slave understands the address and the value to be written; the write succeeds if and only if the line delivers an acceptable echo |
| Blocks.Stream | lib/sha256.cpp:75-96 | folding the whole blocks and keeping the rest is the same for one chunk and for its parts |
| Blocks.StreamPadding | lib/sha256.cpp:98-115 | what is left plus the padding ends on a block boundary, and folds to the padded message |
| Sha256.PaddedShape | lib/sha256.cpp:98-115 | the standard's padded message: the mark, the fewest zeros, and eight bytes that spell the number of bits |
| Sha256.SHA256.Update | lib/sha256.cpp:75-96 | any sequence of chunks leaves the chaining value of the whole blocks of their concatenation, with the rest buffered |
| Sha256.SHA256.Transform | lib/sha256.cpp:23-59 | folds the compression function of the standard over the blocks |
| Sha256.SHA256.Expand | lib/sha256.cpp:31-40 | the 64 words of the message schedule |
| Sha256.SHA256.Mix | lib/sha256.cpp:41-53 | the 64 rounds of the standard, done in place |
| Sha256.SHA256.Final | lib/sha256.cpp:98-115 | feeds exactly the padded message, with a length field of 32 bits |
| Sha256.ShortPaddedIffShort | lib/sha256.cpp:98-115 | that is the standard's padding if and only if the message is shorter than 2^29 bytes |
| Sha256.Sha256 | lib/sha256.cpp:117-132 | the digest of the standard for every message below 2^29 bytes |
| Sha256Example.DigestOfAbc | lib/sha256.cpp:117-132 | the digest of "abc" is the one that FIPS 180-4 gives, all 64 rounds checked |
| Sha1.LowTemp | lib/sha1.cpp:24-32 | the step's sum on words with junk above bit 31 is, in its low 32 bits, the standard's |
| Sha1.RollingReplace | lib/sha1.cpp:25 | overwriting word i mod 16 keeps a window of the 80-word schedule |
| Sha1.NextAt | lib/sha1.cpp:28-32 | one renamed step is one round of the standard on the rotated variables |
| Sha1.SHA1.Transform | lib/sha1.cpp:140-241 | the 80 unrolled steps on a rolling schedule are, modulo 2^32, the loop of section 6.1.2 of FIPS 180-4 |
| Sha1.SHA1.BufferToBlock | lib/sha1.cpp:244-254 | the big-endian words of a block |
| Sha1.SHA1.Update | lib/sha1.cpp:47-60 | any sequence of chunks leaves the chaining value of the whole blocks of their concatenation, with the rest buffered |
| Sha1.SHA1.Final | lib/sha1.cpp:67-109 | the digest of the standard of everything fed, and a fresh state |
| Sha1.TotalBits | lib/sha1.cpp:70 | blocks counted modulo 2^64 plus buffered bytes give the 64-bit length field |
| Sha1.PaddedShape | lib/sha1.cpp:67-99 | the padded message: the mark, the fewest zeros, and eight bytes that spell the number of bits |
| Sha1Example.DigestOfAbc | lib/sha1.cpp:25-32 | the digest of "abc" is the one that FIPS 180-4 gives, all 80 steps checked |
| Md5.CounterAdds | lib/md5.cpp:256-260 | the two-word counter with its carry is addition modulo 2^64 of eight times the length |
| Md5.MD5.Update | lib/md5.cpp:251-284 | any sequence of chunks leaves the chaining value of the whole blocks of their concatenation, with the rest buffered |
| Md5.GuardIffShortEnough | lib/md5.cpp:271-274 | the loop guard with a wrapping index is the intended one for every index if and only if the chunk stays a block below 2^32 bytes |
| Md5.GuardNeverFails | lib/md5.cpp:271-274 | for any other chunk the guard holds at every index reached: the loop does not end |
| Md5.MD5.Transform | lib/md5.cpp:161-245 | the 64 unrolled operations are the four rounds of section 3.4 of RFC 1321 |
| Md5.MD5.Finalize | lib/md5.cpp:298-330 | feeds exactly the padding and the length of the RFC, and yields its digest; a further call changes nothing |
| Md5.Md5 | lib/md5.cpp:111-116 | the digest of the RFC for every text below 2^32 bytes for which the loop ends, and of the part that is not cut off for longer ones |
| Md5.PaddedShape | lib/md5.cpp:298-320 | the padded message: the mark, the fewest zeros, and eight bytes that spell the number of bits, the lowest first |
| Md5Example.DigestOfAbc | lib/md5.cpp:111-116 | the digest of "abc" is the one that appendix A.5 of RFC 1321 gives, all 64 operations checked |
| Rules.KindsExclude | lib/rule.cpp:103-138 | of each sample exactly one of over, under and equal to a value holds, and of the value itself only the last |
| Rules.KindsOrder | lib/rule.cpp:103-124 | what is over a value stays so when it grows, what is under it when it falls |
| Rules.RangesAre | lib/rule.cpp:169-195 | inside a range is over its lower and under its upper bound; outside is under the lower or over the upper one; the bounds themselves are neither |
| Rules.NothingHolds | lib/rule.cpp:8-10 | before any sample of its endpoint a condition does not hold |
| Rules.OneMore | lib/rule.cpp:103-195 | one more sample changes a condition only if it is for its target, to the predicate on that sample |
| Rules.EdgesOneMore | lib/rule.cpp:515-548 | the count of rising edges grows exactly when the conjunction over latest samples goes from false to true |
| Rules.TextsUnderstood | lib/utils.cpp:294-306 | exactly four texts stand for on and four for off |
| Rules.TurnedOn | lib/rule.cpp:264-285 | an action with one of these texts leaves its writable target on or off, as the text says |
| Rules.AssignAllIsLast | lib/rule.cpp:264-308 | after a list of actions every target holds the value of the last accepted action on it, all others are unchanged |
| Rules.AssignAllAppend | lib/rule.cpp:264-308 | running two lists is running their concatenation |
| Rules.AssignAllTwice | lib/rule.cpp:515-562 | running the same actions again changes nothing |
| Rules.EventsAppend | lib/rule.cpp:536-560 | a loop over two lists sends the events of the first, and those of the second where the first leaves the targets |
| Rules.OneEvent | lib/rule.cpp:264-308 | the primary loop reports an action if it can take effect, the enforcing one if besides its target shows another text |
| Rules.PrimaryEventsAre | lib/rule.cpp:536-547 | the primary loop reports every action that can take effect, in order, whatever the others do |
| Rules.PostIsSilentIff | lib/rule.cpp:287-308 | the enforcing loop sends no event, and changes nothing, if and only if every action it would accept has the very text that its target shows |
| Rules.EnforcingIsSilentIff | lib/rule.cpp:515-562 | after the actions have just run, enforcing them is silent if and only if each accepted action is spelled "1" or "0" and agrees with the value its target ends with |
| Rules.EnforcingOnIsLoud | lib/rule.cpp:297-300 | with the action "on" it is not silent, although nothing changes |
| Rules.ObjectManager.ProcessAction | lib/rule.cpp:264-285 | sets the target if it accepts the value |
| Rules.ObjectManager.ProcessActionAfter | lib/rule.cpp:287-308 | the same, reporting only a change |
| Rules.Rule.IsIncludedInCondition | lib/rule.cpp:498-513 | true if and only if some condition is on the endpoint |
| Rules.Rule.Scan | lib/rule.cpp:515-548 | afterwards every cached flag equals its predicate on the latest sample of its target; the results say what changed, what holds and what held before; a satisfied rule has changed or had its last condition on the endpoint satisfied before |
| Rules.Rule.Process | lib/rule.cpp:515-562 | over every run of updates the primary loop has run exactly once for each rising edge; targets and events after the update |
| Rules.SomeLoopRuns | lib/rule.cpp:515-562 | when a rule that mentions the updated endpoint is satisfied, some condition has changed or the last one on the endpoint held before, so that one of the two loops runs |
| Rules.SentWhen | lib/rule.cpp:515-562 | what one update of a rule reports, by what held before and what holds after it: nothing, what has to be enforced, or every effective action and exactly when nothing else |
| Rules.Rule.RunLoops | lib/rule.cpp:536-560 | what the two loops do for every combination of the three flags |
| Rules.RuleManager.Updated | lib/rule_manager.cpp:109-126 | every rule agrees with a recomputation from all samples, targets hold what the satisfied rules that mention the endpoint ask for, later rules and later actions winning, and the events are those of all rules in order, each on the targets as the rules before it left them |
| Rules.LastRuleWins | lib/rule_manager.cpp:109-126 | a later rule that fires and has an understood action on a target decides its value, otherwise the rules before it do |
| Rules.RuleManager.CreateRule | lib/rule_manager.cpp:35-53 | the new rule goes to the end, with no condition on |
| Rules.RuleManager.DestroyRule | lib/rule_manager.cpp:55-71 | removes the first rule with the id and nothing else, or nothing |
| Multimap.InsertKeeps | lib/endpoint_valuemap.cpp:12-22 | insertion behind equal times keeps the order and adds exactly the entry |
| Multimap.WindowIsPeriod | lib/endpoint.cpp:472-483 | the two bounds delimit exactly the entries of the period, each as often as stored |
| Reports.AddAllBounded | lib/endpoint_valuemap.cpp:12-22 | whatever is added, in whatever order, the store is sorted and within its limit |
| Reports.AddAllNewest | lib/endpoint_valuemap.cpp:12-22 | with times that do not decrease, the store is exactly the last entries up to the limit |
| Reports.CountQueryIsNewest | lib/endpoint.cpp:498-506 | a count query into a fresh map of that limit yields, as a multiset, the newest entries |
| Reports.ValueMap.Add | lib/endpoint_valuemap.cpp:12-22 | the oldest entry goes when the store is full; the new one is stored in order |
| Reports.Endpoint.GetDataForPeriod | lib/endpoint.cpp:472-483 | fills the target with the newest entries of the period that its limit admits |
| Reports.Endpoint.GetData | lib/endpoint.cpp:498-506 | fills the target with the newest entries, newest first |
| Reports.Endpoint.GetUnreportedValueMap | lib/endpoint.cpp:411-424 | the entries since the last report, which is then now |
| Reports.ReportEPData | lib/server_linker.cpp:775-825 | one report carries the unreported entries and moves the report date to the present second |
| Reports.ReportedOnceOrTwice | lib/server_linker.cpp:775-825 | over every run whose reports do not go back in time, each sample older than the last report has appeared, been dropped by a report, come in late or been evicted, exactly one of these, and has appeared or been dropped once more for each report of its own second at which it was stored; of newer ones, each is stored or has been evicted |
| Reports.DroppedIff | lib/endpoint.cpp:411-424 | a report drops entries if and only if its period holds more than a hundred |
| Reports.NeverReportedLater | lib/endpoint.cpp:411-424 | an entry older than a report appears in no later one |
| Reports.TwiceOnlyAtReportSecond | lib/endpoint.cpp:411-434 | only a sample stamped with a report second appears twice |
| Scheduler.NextTimeOnGrid | lib/device.cpp:256 | the next time is after now, at most one interval later, congruent to the old time, and the first such time |
| Scheduler.Device.Attach | lib/device.cpp:131-140 | attaches once |
| Scheduler.Device.Detach | lib/device.cpp:142-156 | removes the endpoint and only it |
| Scheduler.Device.TakeDue | lib/device.cpp:241-251 | takes out the first entry that is due at the reading of the clock made for it, if there is one |
| Scheduler.FrozenClock | lib/device.cpp:241-251 | while the clock stands still, that is the earliest entry, if it is due |
| Scheduler.Device.AddSchedule | lib/device.cpp:285-307 | adds one entry in order and attaches the endpoint |
| Scheduler.Device.RemoveSchedule | lib/device.cpp:309-327 | removes the first entry of the endpoint, if there is one |
| Scheduler.ObjectManager.CreateEndpoint | lib/object_manager.cpp:627-661 | a new endpoint is stopped and attached to its device; entries of its id that were left behind are counted |
| Scheduler.ObjectManager.DestroyEndpoint | lib/object_manager.cpp:663-686 | the endpoint goes and is detached, its schedule entry stays |
| Scheduler.ObjectManager.StartEndpoint | lib/endpoint.cpp:268-307 | a passive endpoint is scheduled once if it was not started; the invariant over all endpoints and devices is kept |
| Scheduler.ObjectManager.StopEndpoint | lib/endpoint.cpp:309-335 | its first entry goes; the invariant over all endpoints and devices is kept |
| Scheduler.ObjectManager.Process | lib/device.cpp:241-268 | serves the first entry found due, puts it back if its endpoint exists and drops it otherwise, keeps the invariant, and with the clock standing still leaves one due entry less |
| Linker.StepPlaces | lib/server_linker.cpp:1441-1491 | every step moves a request from one place to another: queue, map, orphans and endings always add up |
| Linker.EveryRun | lib/server_linker_mosquitto.cpp:259-311 | over every run each posted request is in exactly one place, is sent at most once more than its retransmissions (keep-alives and confirms at most once), and confirms are never in the map |
| Linker.EveryEnding | lib/server_linker_mosquitto.cpp:267-302 | over every run, how a request has ended says how often it has been sent: one that expired has been sent exactly as often as it may be, one that is not tracked once, one that was confirmed at least once, one that could not be sent less often than it may be |
| Linker.ExpiredGoBack | lib/server_linker_mosquitto.cpp:267-302 | requests that expire together go back to the queue behind what waits there, in the order of their expiry, with one more transmission counted |
| Linker.EveryRunInOrder | lib/server_linker.cpp:751-766 | over every run, whatever was sent before the first transmission of a request was posted before it |
| Linker.ConfirmEnds | lib/server_linker.cpp:1224-1289 | a confirm with a matching id ends the transmissions of the first such request, whatever happens afterwards |
| Linker.EndedForever | lib/server_linker.cpp:1441-1491 | an ended request is never sent again |
| Liveness.RunWork | lib/server_linker_mosquitto.cpp:267-302 | over every run, each post pays for all the steps that ever deal with it: the work left plus the steps done is at most what was there and was posted |
| Liveness.TicksWork | lib/server_linker_mosquitto.cpp:259-311 | however often the loop turns, and whatever is posted and answered between its turns, the work left falls with every timeout that passes while there is any, and only posting adds to it |
| Liveness.Drains | lib/server_linker_mosquitto.cpp:259-311 | a bound for the whole queue and map: for every period of the loop, and whatever comes in, both have been empty at some time once each piece of work, present or posted meanwhile, has had a timeout and two periods. It speaks of quiet ends of a run, and of loads light enough for that much time to pass; any other load is the matter of `EveryRequestEnds` |
| Liveness.EveryRunDrains | lib/active_object.cpp:354-360 | the same bound after any run, in terms of the number of messages posted |
| Liveness.QuietStaysIdle | lib/server_linker_mosquitto.cpp:259-311 | when nothing more is posted, a queue and a map that have been empty stay so |
| Fairness.EveryRequestEnds | lib/server_linker_mosquitto.cpp:249-311 | in every endless run with any number of posts, answers, failures of the link and confirms, in which turns keep coming and expiries keep up with the time, every request that is ever posted is, from some step on, neither in the queue nor in the map: it has ended, or was orphaned |
| Fairness.BusyIsFair | lib/server_linker_mosquitto.cpp:249-311 | a loop that posts a message before every one of its turns is such a run: nothing needs to become quiet |
| Linker.OrphanedIff | lib/server_linker.cpp:1477-1481 | a request is orphaned if and only if another tracked request expires at the same microsecond |
| Linker.EveryRunKeepsAll | lib/server_linker.cpp:1477-1481 | no request is orphaned over any run whose turns fall into different microseconds |
| Linker.EveryRunSpaced | lib/server_linker_mosquitto.cpp:259-302 | over every run whose clock does not go back, transmissions of a request are at least the timeout apart |
| Linker.DanglingIff | lib/active_object.cpp:317-334 | as written, the map refers to the request that the queue has just deleted if and only if it was sent and is tracked |
| Linker.WrittenIff | lib/active_object.cpp:317-334 | as written, a run uses no deleted request if and only if no confirm meets a request in the map and no expiry an expired one; until then it does what the protocol is meant to do, and everything in the map has been deleted |
| Linker.TouchedNothingIff | lib/server_linker_mosquitto.cpp:259-302 | which steps look at no request in the map |
| Linker.AnswerUsesDeleted | lib/active_object.cpp:317-334 | with confirms on, posting any tracked request, sending it, and receiving its confirm is such a use |
| Linker.CalmWithoutConfirms | lib/server_linker.cpp:159 | while confirms are off, as they are by default, every run is free of such uses |
| Linker.ServerLinker.Send | lib/server_linker.cpp:751-766 | appends the message to the queue; the invariant of every run is kept |
| Linker.ServerLinker.ConfirmRequest | lib/server_linker.cpp:1224-1289 | finds the first request with the id in expiry order, removes exactly it and yields its type; always succeeds when confirms are off |
| Linker.ServerLinker.OnProduce | lib/server_linker.cpp:1441-1491 | sends, tracks or drops the message as the link and its type ask for, and returns true in every case |
| Linker.ServerLinker.ProcessQueue | lib/active_object.cpp:317-334 | takes the first message out, hands it over and deletes it |
| Linker.ServerLinker.ExpireRequests | lib/server_linker_mosquitto.cpp:259-308 | expired requests go back to the queue in order with one more transmission counted, or end; the others stay |
| Linker.ServerLinker.Process | lib/server_linker_mosquitto.cpp:249-311 | expiry first, then one message of the queue |
| NbIot.UnhexHex | lib/device_nbiotm.cpp:565-632 | the text of any bytes reads back as these bytes |
| NbIot.MessageGen | lib/device_nbiotm.cpp:565-576 | appends two upper-case digits for every byte |
| NbIot.HexIsUpper | lib/device_nbiotm.cpp:577-632 | the text consists of digits and upper-case letters |
| NbIot.PublishRoundTrip | lib/device_nbiotm.cpp:735-834 | the MQTT decoder finds the same topic and payload if and only if the remaining length is at most 16383, and no packet otherwise |
| NbIot.ConnectRoundTrip | lib/device_nbiotm.cpp:634-733 | the MQTT decoder finds MQIsdp, version 3, a clean session, 60 seconds and the same client id if and only if the id has at most 241 bytes |
| NbIot.LengthExamples | lib/device_nbiotm.cpp:800-814 | the remaining lengths 64 and 321 that MQTT V3.1 gives as examples |
| NbIot.PublishExample | lib/device_nbiotm.cpp:735-834 | a PUBLISH packet byte by byte |
| NbIot.ConnectExample | lib/device_nbiotm.cpp:634-733 | a CONNECT packet byte by byte |
| NbIot.PublishMessageGen | lib/device_nbiotm.cpp:735-834 | the text is twice as long as the reported packet, and reads back and decodes as above |
| NbIot.ConnectMessageGen | lib/device_nbiotm.cpp:634-733 | the same for the CONNECT packet |
| NbIot.EveryRunSafe | lib/device_nbiotm.cpp:493-555 | over every run and all answers, each publication follows a successful reset, network status, TCP and MQTT connection in this order, and nothing but status queries has failed since that reset |
| NbIot.EveryRunFollows | lib/device_nbiotm.cpp:493-555 | over every run and all answers, each call is the one that follows from the outcome of the call before: a failed status query is repeated, any other failure leads to a reset, success leads on, and the state is the one to which the last call leads |
| NbIot.EveryResetHasCause | lib/device_nbiotm.cpp:493-555 | a session starts over only at the beginning and directly after a failed call other than a status query |
| NbIot.TurnCalls | lib/device_nbiotm.cpp:493-555 | a turn goes on until a call fails or the modem is connected, and then publishes all sensors if and only if the timer has run down |
| NbIot.TurnSucceeds | lib/device_nbiotm.cpp:493-555 | if everything succeeds, one turn connects from any state, and publishes all sensors in order when the timer has run down |
| NbIot.DeviceNbIot.Process | lib/device_nbiotm.cpp:493-555 | one turn makes the calls and the state change of each state, and keeps the session invariant |
| NbIot.DeviceNbIot.PublishAll | lib/device_nbiotm.cpp:533-550 | the sensors are published in order up to the first failure, which resets the session |
| Rcs.AsIntDecimal | lib/utils.cpp:186-210 | a time printed in decimal reads back |
| Rcs.FindAll | lib/rcs_message.cpp:233-408 | what a parser finds under each title of a printed message |
| Rcs.PayloadExample | lib/rcs_message.cpp:233-408 | a message with every kind of item as it goes over the link, names and order included |
| Rcs.RoundTripIff | lib/rcs_message.cpp:74-206 | a printed message is parsed back, with all its lists in order, if and only if single items are objects and there is at most one rule |
| Rcs.RulesLost | lib/rcs_message.cpp:387-406 | several rules never come back as rules, and come back as endpoint data if there is none |
| Rcs.AddedOthers | lib/server_linker.cpp:893-931 | adding under one title changes nothing under any other |
| Rcs.BuildersEncode | lib/server_linker.cpp:893-931 | any number of builder calls encode the same list as printing it at once |
| Rcs.PayloadBuilder.Add | lib/server_linker.cpp:852-891 | the first item is put in as it is, the second moves both into an array at the end, further ones join the array |
| Rcs.PayloadBuilder.AddId | lib/server_linker.cpp:893-931 | the same for an object given by its id |
| Rcs.RcsMessage.Make | lib/rcs_message.cpp:233-408 | prints the message once; a message that has been printed is left as it is |
| Rcs.ParseMessage | lib/rcs_message.cpp:74-206 | the parsed message with its payload printed again, or the error of the first item that is missing or of a wrong type |
| Rcs.ParsedIff | lib/rcs_message.cpp:74-206 | a payload is parsed if and only if the required items are there and every item has a type it may have |
| Rcs.ParseErrors | lib/rcs_message.cpp:76-99 | the error is that of the first item that is missing or of a wrong type |
| Rcs.ParsedItems | lib/rcs_message.cpp:74-206 | the parsed values are those of the items, or the defaults |
| Rcs.NumbersAsText | lib/utils.cpp:186-210 | times and property fields are read alike as numbers and as decimal texts |

## Left out

- Modbus.ReadHoldingRegisters: counts above 125, which the line protocol does not allow, and registers as signed numbers (they are 16-bit patterns here). As in the source, the device byte of a reply is covered by the CRC but not compared with the request.
- Modbus.WriteRegister: as in the source, the echo is not compared with the address and the value that were written; flushing the port is not modelled.
- Sha256Example.DigestOfAbc: one message of one block; that longer messages chain blocks in the same way is `Blocks.Stream`.
- Modbus.RequestAndWait: the time a reply takes is the list of reads made before the timer runs out; flushing the port is not modelled.
- Crc.Crc16ShortCounter: lengths are below 2^16, the range of its parameter type.
- Sha256.SHA256.Update: chunks of 2^31 bytes and more, for which the signed block index of the loop is undefined.
- Sha1.SHA1.Transform: an `unsigned long` is two 32-bit halves, which covers the platforms where it has 64 bits; five renamed steps are written once and repeated in a loop with the five names rotated, instead of eighty lines. Words on platforms where it has 32 bits are the case of empty upper halves.
- Md5.MD5.Transform: four renamed steps are written once and repeated, instead of sixty-four lines.
- Md5.MD5.Update: chunks within a block of 2^32 bytes, for which the loop does not end and reads past the chunk (`GuardIffShortEnough`, `GuardNeverFails`).
- Md5.Md5: texts for which that happens to the part that is not cut off.
- CrcErrors.FewFlipsChangeCrc: an even number of flipped bits above two that do not lie within 16 bits of each other; such errors are detected unless they are multiples of the polynomial (`FourFlipsHidden`), which of them are is not worked out further.
- Reports.ReportedOnceOrTwice: runs in which the clock of the reports goes back.
- Reports.ValueMap.Add: a limit of zero, for which the source erases from an empty map.
- Scheduler.ObjectManager.CreateEndpoint: correction intervals of zero, by which the source divides.
- Scheduler.ObjectManager.Process: reading the sensor when an endpoint is served.
- Linker.ServerLinker.ProcessQueue: a deleted request stays in the map as the value it had, so that the protocol goes on as meant; `WrittenIff` says up to where the code as written does the same.
- Linker.ServerLinker.Process: requests are values with a serial number for their identity; the connection to the broker, and received messages, which share the queue, are not modelled (a reply is a step of its own).
- NbIot.PublishMessageGen: topics and payloads for which the 16-bit sizes of the allocated buffers wrap; the branches for other qualities of service, which the constant in the code rules out.
- NbIot.ConnectMessageGen: the branches for user names and passwords, which the code rules out; the limit of 23 characters on client ids in section 3.1 of MQTT V3.1, which a broker may enforce and the gateway does not observe.
- NbIot.DeviceNbIot.Process: how the answers to AT commands are split and compared; a call is its success or failure.
- Rcs.RoundTripIff: the branches for null lists, whose flags nothing ever sets; the tables that turn field names into flags (fields are numbers); the secret code, which is a parameter; times before 1970.
- Rcs.PayloadBuilder.Add: the copies of the same code for gateways, devices, endpoints and endpoint data are one method with the title as parameter.
- Rules.RuleManager.Updated: samples are reals, so that the rounding of floating point and of texts read as numbers is not modelled; actuators accept the two values of a switch, a write of an accepted value succeeds and reads back, and its three attempts are one.
- Threads: every method call is one step; locks, and starting and stopping threads, are not modelled.
- `Buffer`, `Endpoint::DelDataForPeriod`, SNMP, the database, sockets, files, the shell and the individual drivers: input and output, or code without a meaning to state.
- Hexadecimal text of the digests, property setters, tracing and type factories: they would only add easy members.
