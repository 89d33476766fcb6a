# mahi-fes stimulator core in Dafny

This project models the core of the mahi-fes driver for a multi-channel functional
electrical stimulation (FES) board. The board is driven over a serial link. The core has three parts:

- **The frame codec** (`utility.dfy`, module `Utility`). Every outbound frame is
  `[0x04][0x80][type][payload length][payload][checksum]`. `checksum` sums every byte
  before the last one, adds the carry byte back once and XORs the result with 0xFF.
  `write_message` stores that value's low byte in the last slot and hands the frame to
  the transport. `int_to_twobytes` splits a 16-bit field big-endian. `print_as_hex`
  renders a byte as `0xHH`.
- **The scheduler** (`scheduler.dfy`, module `Schedulers`). This is a class with an id, an
  ordered list of events, an enabled flag and a sync byte. Each event is bound to a
  channel by name and carries a staged amplitude and pulse width. `update` sends one
  command per event.
- **The stimulator façade** (`stimulator.dfy`, module `Stimulators`). This is a class around an
  `enabled` flag, the channel list, one scheduler and four snapshot arrays. `enable`
  runs open, configure and board initialisation in order and stops at the first failure.
  While it is disabled, `begin`, `set_amp(s)`, `write_pw(s)`, `update`, `create_scheduler`
  and `add_event(s)` are refused. `halt_scheduler`, `update_max_amp` and `update_max_pw`
  act whether it is enabled or not.

`records.dfy` (module `Records`) holds the Channel and Event records. It also holds the
first-match search by name and the "stop at the first failure" shape. Both
`initialize_board` and `add_events` share that shape.

Every transmission, port operation and channel setup is reduced to its boolean outcome.
These outcomes are given to the model as parameters: `writeSucceeds`, `sendSucceeds`,
`sendOutcomes`, `openSucceeds`, `configureSucceeds` and `setupOutcomes`. A device reply is
given as a byte sequence. What the model keeps is the state each operation leaves
behind, and the frames or commands it hands to the transport.

Some behaviour is reproduced exactly as the code has it:

- `Stimulator::add_event` passes its `event_type` to `Scheduler::add_event`'s
  `is_virtual_` parameter. So the event is virtual exactly when the type is non-zero,
  and its own type is always the default `STIM_EVENT` (0x03). See `Stimulators.AddedEvent`.
- `Stimulator::update` reads `channels[i]` and the four arrays by event index. The
  locked snapshot loop is `Stimulators.Stimulator.Snapshot`. So
  `Stimulators.Stimulator.Update` requires that an enabled stimulator has no more events
  than array slots. The arrays are never longer than the channel list, which is part of `Valid()`.
- `Stimulator::create_scheduler` reads byte 0 of the reply without checking it
  (src/Mahi/Fes/Core/Stimulator.cpp:315-316). It stores
  that byte as the scheduler id even when the send failed. It returns the send's outcome.
  So the model requires a non-empty reply when the stimulator is enabled.
- `set_amps` and `write_pws` take `int` values and pass them on as `unsigned int`.
  The model narrows each value modulo 2^32.
- `Stimulator::disable` calls `scheduler.disable()` and sends no halt frame
  (src/Mahi/Fes/Core/Stimulator.cpp:77-86).
- `set_amp` and `write_pw` on a disabled stimulator only log; they return nothing and leave
  the scheduler untouched (src/Mahi/Fes/Core/Stimulator.cpp:224-230 and 244-250).
- `Stimulator::add_event` does not check that a scheduler id has been assigned
  (src/Mahi/Fes/Core/Stimulator.cpp:325-334).

## Model

| member | source | states |
|---|---|---|
| `Utility.ComputeChecksum` | src/Mahi/Fes/Utility/Utility.cpp:29-36 | the loop returns `Checksum`: the sum of bytes 0 .. size-2, the carry byte added back once, then XOR 0xFF; its low byte is 0xFF minus the low byte of the folded sum |
| `Utility.InvertLowByte` | src/Mahi/Fes/Utility/Utility.cpp:34 | `v ^ 0xFF` on a non-negative value keeps every bit above the low byte and complements the low byte |
| `Utility.ChecksumOfShortMessage` | src/Mahi/Fes/Utility/Utility.cpp:30-35 | with size at most 1 nothing is summed and the checksum is 0xFF |
| `Utility.ChecksumIgnoresTail` | src/Mahi/Fes/Utility/Utility.cpp:31-33 | changing any byte at index size-1 or later (the checksum slot) leaves the checksum unchanged |
| `Utility.ChecksumSumsEachByte` | src/Mahi/Fes/Utility/Utility.cpp:31-33 | changing a byte below index size-1 changes the summed value by exactly the byte's difference |
| `Utility.ChecksumIgnoresOrder` | src/Mahi/Fes/Utility/Utility.cpp:31-33 | swapping two summed bytes leaves the checksum unchanged (reordering is undetectable) |
| `Utility.Seal` | src/Mahi/Fes/Utility/Utility.cpp:70 | storing the narrowed checksum changes only slot size-1, keeps the length, and the result passes the receiver's check |
| `Utility.SealIdempotent` | src/Mahi/Fes/Utility/Utility.cpp:70 | recomputing and storing the checksum of a sealed buffer changes nothing |
| `Utility.ValidIffSealed` | src/Mahi/Fes/Utility/Utility.cpp:70 | a buffer passes the receiver's check (folded sum + last byte is 0xFF mod 256) exactly when sealing leaves it unchanged |
| `Utility.WriteMessage` | src/Mahi/Fes/Utility/Utility.cpp:61-92 | the buffer becomes `Seal` of the old buffer, the first size bytes go to the transport, the result is the write's outcome, and an Info or Error line is logged unless the activity is "NONE" |
| `Utility.EncodeFrame` | src/Mahi/Fes/Core/Stimulator.cpp:174-182 | a frame is dest 0x04, src 0x80, type, payload length, payload, then a checksum that passes the receiver's check |
| `Utility.DecodeEncode` | src/Mahi/Fes/Core/Stimulator.cpp:174-182 | decoding an encoded frame gives back its type and payload |
| `Utility.EncodeDecode` | src/Mahi/Fes/Core/Stimulator.cpp:174-182 | every frame that decodes is exactly the encoding of its type and payload |
| `Utility.IntToTwoBytes` | src/Mahi/Fes/Utility/Utility.cpp:44-59 | two bytes; the low byte is the input modulo 256 for every input; for a non-negative input the high byte is the quotient by 256 narrowed to a byte (negative inputs: `TwoBytesOfSmallNegative`, `TwoBytesOfNegative`) |
| `Utility.TwoBytesRoundTrip` | src/Mahi/Fes/Utility/Utility.cpp:53-56 | for 0..65535 the result is `[n / 256, n % 256]` and 256*hi + lo gives n back |
| `Utility.TwoBytesOfPair` | src/Mahi/Fes/Utility/Utility.cpp:53-56 | splitting 256*hi + lo gives `[hi, lo]` for every byte pair |
| `Utility.TwoBytesWrap` | src/Mahi/Fes/Utility/Utility.cpp:53-56 | above 65535 nothing is bounds-checked: the pair keeps the input modulo 2^16 |
| `Utility.TwoBytesOfSmallNegative` | src/Mahi/Fes/Utility/Utility.cpp:53-56 | for -255..-1, C's truncating division gives high byte 0 and low byte n + 256 |
| `Utility.TwoBytesOfNegative` | src/Mahi/Fes/Utility/Utility.cpp:53-56 | for every negative input, C's truncating `/` and `%` make the pair read back as n modulo 2^16 when 256 divides n, and as n + 256 modulo 2^16 otherwise; the pair does not keep n modulo 2^16 |
| `Utility.TwoBytesOfMinus300` | src/Mahi/Fes/Utility/Utility.cpp:53-56 | -300 splits into (255, 212), which reads back as 65492 rather than -300 modulo 2^16 |
| `Utility.TwoBytesExamples` | src/Mahi/Fes/Utility/Utility.cpp:44-59 | 300 gives (1, 44), 0 gives (0, 0), 65535 gives (255, 255), -1 gives (0, 255) |
| `Utility.PrintAsHex` | src/Mahi/Fes/Utility/Utility.cpp:38-42 | always 4 characters: "0x" and two upper-case hex digits |
| `Utility.ParsePrintedHex` | src/Mahi/Fes/Utility/Utility.cpp:38-42 | reading the rendering back gives the byte (the digits encode the byte) |
| `Utility.PrintParsedHex` | src/Mahi/Fes/Utility/Utility.cpp:38-42 | every "0xHH" string with upper-case digits is the rendering of its value (the format is canonical) |
| `Records.FirstIndex` | src/Mahi/Fes/Core/Stimulator.cpp:253-261 | the index found holds the name and no earlier index does; no index is found exactly when the name is absent |
| `Records.StopsAtFirstFailureUnique` | src/Mahi/Fes/Core/Stimulator.cpp:196-200 | the outcomes decide how many attempts a stop-at-first-failure loop makes and what it reports |
| `Records.StopsAtFirstFailureOk` | src/Mahi/Fes/Core/Stimulator.cpp:338-344 | such a loop reports success exactly when every outcome is a success |
| `Schedulers.Staged` | include/Mahi/Fes/Core/Scheduler.hpp:50-57 | staging keeps the length and the channel names; only the first event bound to the channel can change; with no such event nothing changes |
| `Schedulers.StagedThenRead` | include/Mahi/Fes/Core/Scheduler.hpp:50-57 | after set_amp(c, a), get_amp(c) is a (likewise write_pw / get_pw) when c has an event |
| `Schedulers.StagedKeepsOthers` | include/Mahi/Fes/Core/Scheduler.hpp:50-57 | staging one setting of one channel leaves the other setting and every other channel's readings unchanged |
| `Schedulers.ValueOfIsFirstMatch` | include/Mahi/Fes/Core/Scheduler.hpp:52-57 | get_amp / get_pw read the first event bound to the channel; later events bound to the same channel are never read |
| `Schedulers.NewEvent` | include/Mahi/Fes/Core/Scheduler.hpp:39-41 | the appended event is bound to the channel and carries the given type and virtual flag |
| `Schedulers.Scheduler.constructor` | include/Mahi/Fes/Core/Scheduler.hpp:32-33 | a new scheduler has no events and is not enabled |
| `Schedulers.Scheduler.CreateScheduler` | include/Mahi/Fes/Core/Scheduler.hpp:36-38 | registers the sync byte, returns the send's outcome, and leaves the id, events and enabled flag unchanged |
| `Schedulers.Scheduler.AddEvent` | include/Mahi/Fes/Core/Scheduler.hpp:39-41 | appends exactly one event after the existing ones, which keep their order; the default type is STIM_EVENT |
| `Schedulers.Scheduler.Enable` | include/Mahi/Fes/Core/Scheduler.hpp:42-43 | afterwards is_enabled() is true; id, events and sync byte are unchanged |
| `Schedulers.Scheduler.Disable` | include/Mahi/Fes/Core/Scheduler.hpp:44-45 | afterwards is_enabled() is false; id, events and sync byte are unchanged |
| `Schedulers.Scheduler.SetId` | include/Mahi/Fes/Core/Scheduler.hpp:46-49 | afterwards get_id() returns the new id; no other field changes |
| `Schedulers.Scheduler.GetId` | include/Mahi/Fes/Core/Scheduler.hpp:46-47 | returns the stored id, the one SetId last wrote |
| `Schedulers.Scheduler.SetAmp` | include/Mahi/Fes/Core/Scheduler.hpp:50-53 | get_amp of the channel becomes the amplitude; every pulse width and other channels' amplitudes are unchanged |
| `Schedulers.Scheduler.GetAmp` | include/Mahi/Fes/Core/Scheduler.hpp:52-53 | 0 for a channel with no event; otherwise the amplitude of an event bound to the channel (the first one, by `ValueOfIsFirstMatch`) |
| `Schedulers.Scheduler.WritePw` | include/Mahi/Fes/Core/Scheduler.hpp:54-57 | get_pw of the channel becomes the pulse width; every amplitude and other channels' pulse widths are unchanged |
| `Schedulers.Scheduler.GetPw` | include/Mahi/Fes/Core/Scheduler.hpp:56-57 | 0 for a channel with no event; otherwise the pulse width of an event bound to the channel (the first one, by `ValueOfIsFirstMatch`) |
| `Schedulers.Scheduler.GetEvents` | include/Mahi/Fes/Core/Scheduler.hpp:60-61 | returns the attached events in the order they were added |
| `Schedulers.Scheduler.GetNumEvents` | include/Mahi/Fes/Core/Scheduler.hpp:58-61 | the number of events always equals the length of get_events() |
| `Schedulers.Scheduler.HaltScheduler` | include/Mahi/Fes/Core/Scheduler.hpp:62-63 | returns the send's outcome; a halted scheduler is no longer enabled |
| `Schedulers.Scheduler.Update` | include/Mahi/Fes/Core/Scheduler.hpp:64-65 | one command per attached event, in order, carrying that event's amplitude and pulse width; true exactly when every send succeeded |
| `Schedulers.Scheduler.IsEnabled` | include/Mahi/Fes/Core/Scheduler.hpp:68-69 | returns the enabled flag that Enable, Disable, SendSyncMsg and HaltScheduler set |
| `Schedulers.Scheduler.SendSyncMsg` | include/Mahi/Fes/Core/Scheduler.hpp:66-67 | returns the send's outcome; once the sync byte is sent the scheduler is enabled |
| `Stimulators.Limited` | src/Mahi/Fes/Core/Stimulator.cpp:252-274 | updating a ceiling keeps the channel list's length and names |
| `Stimulators.LimitedChangesFirstMatchOnly` | src/Mahi/Fes/Core/Stimulator.cpp:252-274 | only the first channel with the name changes, in the one ceiling; with no match nothing changes |
| `Stimulators.StagedAllKeepsOtherSetting` | src/Mahi/Fes/Core/Stimulator.cpp:232-242 | set_amps never changes a pulse width and write_pws never changes an amplitude |
| `Stimulators.StagedAllKeepsUnlisted` | src/Mahi/Fes/Core/Stimulator.cpp:232-242 | a channel not in the list keeps its staged value |
| `Stimulators.StagedAllLastWins` | src/Mahi/Fes/Core/Stimulator.cpp:232-242 | a listed channel with an event ends with the value at its last position in the list, narrowed to `unsigned int` |
| `Stimulators.AddedEvent` | src/Mahi/Fes/Core/Stimulator.cpp:325-334 | the event add_event appends always has type STIM_EVENT and is virtual exactly when the requested type is non-zero |
| `Stimulators.Stimulator.constructor` | src/Mahi/Fes/Core/Stimulator.cpp:34-52 | four zeroed arrays of the given size, the first size channels' ceilings and names copied, then enabled exactly when enable succeeds |
| `Stimulators.Stimulator.Enable` | src/Mahi/Fes/Core/Stimulator.cpp:57-75 | true and enabled only if open, configure and initialise all succeed; configure runs only after a successful open, channel setup only after both |
| `Stimulators.Stimulator.InitializeBoard` | src/Mahi/Fes/Core/Stimulator.cpp:171-205 | sets channels up in index order; false at the first failure, with no later channel touched; true when all succeed |
| `Stimulators.Stimulator.Disable` | src/Mahi/Fes/Core/Stimulator.cpp:77-86 | afterwards not enabled; the scheduler is disabled and the handle closed only if it was enabled before |
| `Stimulators.Stimulator.CloseStimulator` | src/Mahi/Fes/Core/Stimulator.cpp:209-212 | afterwards not enabled |
| `Stimulators.Stimulator.HaltScheduler` | src/Mahi/Fes/Core/Stimulator.cpp:207 | forwards to the scheduler's halt and returns its outcome |
| `Stimulators.Stimulator.Begin` | src/Mahi/Fes/Core/Stimulator.cpp:214-222 | refused (false, scheduler untouched) while disabled; otherwise the sync send's outcome |
| `Stimulators.Stimulator.SetAmp` | src/Mahi/Fes/Core/Stimulator.cpp:224-230 | stages the amplitude only while enabled; otherwise the scheduler's events are unchanged |
| `Stimulators.Stimulator.SetAmps` | src/Mahi/Fes/Core/Stimulator.cpp:232-236 | stages each pair in list order while enabled; otherwise no change |
| `Stimulators.Stimulator.WritePws` | src/Mahi/Fes/Core/Stimulator.cpp:238-242 | stages each pulse width in list order while enabled; otherwise no change |
| `Stimulators.Stimulator.WritePw` | src/Mahi/Fes/Core/Stimulator.cpp:244-250 | stages the pulse width only while enabled; otherwise the scheduler's events are unchanged |
| `Stimulators.Stimulator.UpdateMaxAmp` | src/Mahi/Fes/Core/Stimulator.cpp:252-262 | the channel list becomes `Limited` of the old one, so only the first name match gets the new amplitude ceiling |
| `Stimulators.Stimulator.UpdateMaxPw` | src/Mahi/Fes/Core/Stimulator.cpp:264-274 | the channel list becomes `Limited` of the old one, so only the first name match gets the new pulse-width ceiling |
| `Stimulators.Stimulator.UpdateLimit` | src/Mahi/Fes/Core/Stimulator.cpp:253-261 | the search loop of update_max_amp / update_max_pw: the channel list becomes `Limited` of the old one, the first name match only, and nothing changes without a match |
| `Stimulators.Stimulator.Snapshot` | src/Mahi/Fes/Core/Stimulator.cpp:278-290 | for every event index i, slot i of the four arrays holds get_amp(channels[i]), get_pw(channels[i]) and channel i's two ceilings; later slots are untouched |
| `Stimulators.Stimulator.Update` | src/Mahi/Fes/Core/Stimulator.cpp:276-299 | while enabled, for every event index i the four arrays hold get_amp(channels[i]), get_pw(channels[i]) and channel i's two ceilings; later slots are untouched; the result is the scheduler update's; while disabled, false and nothing changes |
| `Stimulators.Stimulator.CreateScheduler` | src/Mahi/Fes/Core/Stimulator.cpp:301-323 | while enabled, the sync byte is registered, the id becomes byte 0 of the reply and the result is the send's outcome; while disabled, false and nothing changes |
| `Stimulators.Stimulator.AddEvent` | src/Mahi/Fes/Core/Stimulator.cpp:325-334 | while enabled, appends `AddedEvent` and returns the send's outcome; while disabled, false and no event is added |
| `Stimulators.Stimulator.AddEvents` | src/Mahi/Fes/Core/Stimulator.cpp:336-349 | while enabled, adds events in list order and stops at the first failed add; the events added before it stay; true only when all succeed; while disabled, false and nothing added |
| `Stimulators.Stimulator.GetChannels` | src/Mahi/Fes/Core/Stimulator.cpp:351 | returns the channel list, including ceilings changed by update_max_amp / update_max_pw |
| `Stimulators.Stimulator.IsEnabled` | src/Mahi/Fes/Core/Stimulator.cpp:353 | returns the enabled flag that enable, disable and close_stimulator set |
| `Stimulators.Stimulator.GetName` | src/Mahi/Fes/Core/Stimulator.cpp:355 | returns the name given to the constructor |

## Left out

- Serial-port plumbing is not modelled. This covers `open_port`, `configure_port` and
  `close_stimulator`'s `CloseHandle` (CreateFileW, Get/SetCommState, SetCommTimeouts).
  It is OS I/O, so each is reduced to a boolean outcome.
- `read_all` is not modelled. It is a ReadFile drain loop that only prints.
- `wait_for_message` is not part of this model. Its reply is an input byte sequence.
- The mutex in `update` is not modelled. It exists only for concurrency, and the snapshot
  is modelled as plain sequential assignments.
- The conversion from frequency to period, `(unsigned int)(1.0 / frequency_ * 1000)`, and its 50 ms default, are
  not modelled. They use floating point, so the period is an input.
- `WriteFile` is not modelled; its outcome is a parameter.
- Logging is left out apart from `write_message`'s. This covers the `LOG` calls, `std::cout` output, and the
  sleeps after setup and handshake frames (`delay_time`, `setup_time`).
- The destructor is not modelled. It only calls `disable`, which is modelled.
- Scheduler.cpp is not part of this model, so only the header's declarations and
  comments are followed. Four choices where the header is silent:
  - events are matched by channel name, first match;
  - `add_event` appends its event whatever the send's outcome;
  - `send_sync_msg` enables the scheduler and `halt_scheduler` disables it, each only on a successful send;
  - frame contents are not modelled, and `update` issues one `Command` per event, addressed by the event's position.
- Channel.cpp and Event.cpp are not part of this model. For a channel, only the name and the two ceilings are kept,
  and `setup_channel` is reduced to its outcome. For an event, only the channel name, the staged values, the type and
  the virtual flag are kept. The device-assigned event ids are not modelled. New events start at amplitude and pulse width 0.
- Schedulers.ValueOf: `get_amp` and `get_pw` for a channel with no event return 0. The header does not say what
  they return.
- Utility.ComputeChecksum: the sum is kept in an unbounded integer. The source's 32-bit `int` accumulator
  would overflow only on buffers of more than 8,421,505 bytes.
- src/FES/Core/Stimulator.cpp is not modelled. It is an older, superseded copy of the stimulator that is almost all port I/O.
- The demo program ex_virtual_stim.cpp is not modelled. It is a demo entry point built on `VirtualStim`, whose source is not part of this model.
- Stimulators.Stimulator.SetAmps: requires the value list to be at least as long as the channel list, as does `WritePws`. The source indexes the values without a check, and a shorter list is undefined behaviour there.
