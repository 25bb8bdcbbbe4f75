# XInput on Linux: verified model

This project models the core of an XInput implementation for Linux evdev gamepads and proves
properties of the model with Dafny 4.11. `dafny verify dfyconfig.toml` checks all of it.

Two pipelines are modelled, and the pieces compose.

**From device events to keystrokes.** A device announces its keys and axes as bit maps. The generic
driver's allocator (`Allocation`, `AllocationTheorems`, `Devices`, `Generic`) builds from them a table of pad bits
per key and of actions per axis. An interpreter (`Translator`, `DeviceRun`) folds the event stream
through these tables into the 16-byte gamepad record, which is modelled as memory (`Gamepad`,
`AxisBytes`): a two-byte store really overwrites the neighbouring byte. The record becomes a 32-bit
button state, and the keystroke engine (`Keystroke`, `KeystrokeApi`) walks from the remembered state to
the current one, one key per call. `EndToEnd` puts the four together: what a client that only follows
keystrokes believes is exactly what the device last said, key by key. `Values` and `AxisValues` say the
same of the axes in integers, and `Reported` in virtual keys. `Xboxpads` compares the hand-written and the
table-driven Xbox drivers, `XboxGeneric` both of them with the generic one. `Slots` covers the four device
slots over probes and closes, `ProbeTimes` the clock that limits the probes.

**The service.** Processes race to be the one server. `ServiceProtocol` is a transition system with one
step per system call or store, any number of processes running the server and the client code, failing
calls, and a crash enabled everywhere. `ServiceInvariant` holds the inductive invariant,
`ServiceTheorems` and `ServiceClients` what follows in every reachable state, for servers and for
clients; `ServiceReads` is about the retries on an owner that is not set yet, and `ServiceExact` about
what a server thread leaves behind on every way through its code. `Idle` is the idle shutdown of the service
thread, `Client` the client's handles.

`Bits`, `Unions` and `Bitmaps` hold small facts about words and bit arrays; `XInput` holds constants and
`Wrappers` the option type. Code that updates state in place is a class or a method over arrays, proved
against a function; the theorems are about these functions. Bit patterns of a state are only ever
looked at through the small facts, which keeps every proof short.

## What the code does that its comments do not say

- `translate_to_axis` stores two bytes, also for the one-byte triggers. A left trigger event overwrites
  the right trigger with its high byte and a right trigger event overwrites the low byte of the left
  stick's horizontal axis; `AxisBytes` states exactly when the fields still read back
  (`RightTriggerIff`, `LeftStickIff`) and gives the failing inputs (`TriggersSpill`).
- Vertical axes are stored complemented, not negated, so their thresholds are off by one
  (`ReversedThresholds`).
- The allocator's fallback for a missing left trigger stores at item 16, which is the horizontal axis of
  the first hat. A pad with a hat and no left trigger axis is accepted, and left and right of its d-pad
  do nothing: `AcceptedDrivesIff` says exactly which bits are driven, `DeadDpad` gives such a pad.
- The allocator clears key bits where it could have cleared axis bits, so keys with the codes 0 to 5 may
  be dead (`KeyDrivesIff`), and a pad can be refused because it also has a left stick
  (`ClearedKeyRefuses`).
- When an axis was not named and no axis bit is left, the allocator's axis scan leaves its bit map; the
  model ends with `Overrun` there, and `ServeAxes` says exactly when. Named buttons and a d-pad hat as
  the only axes are enough (`HatOnly`, `HatOnlyProbe`).
- An axis that a device announces may get no item, and its first event calls a null pointer:
  `AnnouncedUsableIff` and `AllStreamsFitIff` say exactly when not, `UnusedHat` gives a device.
- A device is recognised as already in use only if its inode number survives a conversion to `int`
  (`RecognisedIff`). Otherwise it takes another slot on each probe (`WideInodeAgain`, `WideInodeTwice`)
  or, when the converted number is the mark of a free slot, is never taken (`MarkNeverTaken`).
- A server that cannot make its queue leaves its segment bound with an unset owner (`FailedCall`); the next
  server needs six reads of the owner and 21 steps in all to replace it (`UpExactly`).
- A keystroke call for any index takes the next number of a counter that is never reset, and polls only
  that index. From the fifth such call on it never polls anything (`AnyAsksFourTimes`).
- The shortcut for the service's own process judges its client half alive with any segment it maps, also
  that of an earlier server (`SelfVerdictIff`, `SelfRun`).
- A client's verdict that the server is alive can be stale, because the owner field is read before the
  process is probed (`VerdictFreshIff`); `StaleRun` is a run that ends so.
- The liveness check writes to the segment without a test when the process is itself the service; the
  segment can be unmapped then (`Client.Process.Probe`, `ProbesUntilFault`).
- The service thread stores the time itself when a look was fresh. What matters is therefore that no gap
  longer than a period lies between any two events since the last poke (`StopsIffAbandoned`). Client
  pokes alone decide exactly when no earlier fresh look stands in for them (`PokesDecideIff`), as with
  looks further apart than a period (`StopsIffDeserted`); after one poke, looks exactly one period apart
  keep the thread going for ever (`KeepsItselfGoing`).

## Model

| member | source | states |
|---|---|---|
| ServiceTheorems.NoSplitBrain | src/xinput_service.c:484-889 | in every reachable state of any interleaving with crashes, a segment naming a live owner is the one bound to the shared name, was made by that owner, and the owner holds the lock |
| ServiceTheorems.OneLiveSegment | src/xinput_service.c:735-742 | at most one segment ever names a live owner |
| ServiceTheorems.QueuePairing | src/xinput_service.c:488-525 | the queue name is bound only while the shared name is bound to the segment the queue was made for; one queue per segment |
| ServiceTheorems.VerdictPairsQueue | src/xinput_gamepad.c:186-338 | a client judged connected to a live server by the kill path maps that server's segment and holds the only queue made for it |
| ServiceClients.SelfVerdictIff | src/xinput_gamepad.c:191-200 | the shortcut for the service's own process succeeds with any segment; it is the bound one, with its only queue, exactly when the process published it itself |
| ServiceClients.SelfRun | src/xinput_gamepad.c:191-200 | a run from the initial state in which the shortcut judges a client alive with the broken segment of an earlier server |
| ServiceClients.ClientReaches | src/xinput_gamepad.c:186-370 | while one server serves, every succeeding step of a client of another process brings it closer to being judged connected to that server's segment |
| ServiceClients.ClientFindsServer | src/xinput_gamepad.c:186-370 | from any reachable state at most 17 such steps are needed, whatever segment the client maps and whatever others do |
| ServiceTheorems.VerdictWasCurrent | src/xinput_gamepad.c:213-270 | every positive verdict was true at an earlier point of the run: the segment was the bound one and its owner held the lock |
| ServiceTheorems.VerdictFreshIff | src/xinput_gamepad.c:213-243 | a probed owner is still serving the client's segment exactly when the owner field is unchanged since it was read |
| ServiceTheorems.StaleVerdict | src/xinput_gamepad.c:237-269 | any verdict in flight about a serving owner can become stale while the probe still succeeds |
| ServiceTheorems.StaleRun | src/xinput_gamepad.c:213-269 | a run from the initial state in which a client is judged connected to a segment that is marked broken and no longer bound |
| ServiceTheorems.UnreachableBranches | src/xinput_service.c:857-882 | poking never finds a live owner, creating never finds the queue name taken, and create is called at most twice |
| ServiceTheorems.LiveServerUndisturbed | src/xinput_service.c:603-637 | nothing but the owner's own server thread or its crash changes a live server's segment, owner field, lock or names |
| ServiceTheorems.Recovery | src/xinput_service.c:847-889 | whatever names were left behind and whatever others do, a process that took the lock serves after at most 21 steps of its own unless it crashes or a call fails |
| ServiceTheorems.ReachesServing | src/xinput_service.c:857-882 | the same from any position on the way, with the remaining number of steps |
| ServiceTheorems.StopRun | src/xinput_service.c:484-538 | leaving the idle loop unbinds queue and segment, marks the segment broken and touches no other process |
| ServiceReads.ClientRetries | src/xinput_gamepad.c:211-243 | over every run: a client that still reads the owner field has met only an unset owner, once per retry used; one that has stopped stopped at the first set owner or at the sixth read; one that is judged alive is so by the owner it stopped at |
| ServiceReads.ReadsOnIff | src/xinput_gamepad.c:211-230 | a client goes on reading exactly while the owner is unset and it has made fewer than six reads, and otherwise judges the owner of its last read |
| ServiceReads.JudgedIff | src/xinput_gamepad.c:237-269 | alive exactly when the last read met the id of a running process |
| ServiceReads.ServerRetries | src/xinput_service.c:575-599 | the same of a server that found the shared name taken |
| ServiceReads.PokesOnIff | src/xinput_service.c:575-590 | such a server goes on reading exactly while the owner is unset and it has made fewer than six reads |
| ServiceReads.StartUpRun | src/xinput_gamepad.c:211-230 | the start-up race: a first read meets an unset owner, the server stores its id, the second read leads to a positive verdict |
| ServiceExact.UpExactly | src/xinput_service.c:540-762 | from any reachable state a process that has just taken the lock serves after exactly 8, 16 or 21 steps of its own, with the old segment marked broken and a new segment and queue bound |
| ServiceExact.DownExactly | src/xinput_service.c:484-538 | a serving thread that leaves its loop is off after exactly five steps, its segment marked, both names unbound and the lock free |
| ServiceExact.FailedCall | src/xinput_service.c:639-889 | what every call that can fail leaves bound, and after how many steps the lock is free again |
| ServiceExact.CannotFail | src/xinput_service.c:484-889 | no other step depends on success |
| ServiceExact.LockTakenIff | src/xinput_service.c:773-855 | the lock is taken exactly when it is free and the call succeeds; otherwise nothing has changed |
| ServiceClients.SelfIffPublished | src/xinput_service.c:728-768 | over every run a process counts as the service itself exactly from publishing its segment until unbinding it |
| ServiceClients.ConnectsIff | src/xinput_gamepad.c:272-338 | two calls connect a client exactly when both succeed and both names are bound, to what is bound then |
| ServiceClients.LetsGo | src/xinput_gamepad.c:160-338 | a client whose call fails holds nothing afterwards and changes nothing else; reading and probing the owner cannot fail |
| ServiceInvariant.StepKeeps | src/xinput_service.c:540-889 | every step of every process, and every crash, keeps the protocol invariant |
| ServiceInvariant.ReachableInv | src/xinput_service.c:540-889 | the invariant holds after every sequence of actions |
| Keystroke.StepChangesOneRow | src/dll.c:291-350 | a successful call changes the active rows by exactly the reported one, the least pending release or else the least pending press, and lowers the number of differing rows by one |
| Keystroke.NoStrokeIff | src/dll.c:291-350 | nothing is reported exactly when both states have the same active rows |
| Keystroke.ApplyWellFormed | src/dll.c:311-336 | a stroke keeps a well-formed state well formed |
| Keystroke.DrainIsSpec | src/dll.c:276-350 | repeated calls report every release and then every press, once each and in table order, and end with the target's active rows |
| Keystroke.DrainReachesTargetIff | src/dll.c:291-350 | a drain ends in the target state itself exactly when the target is well formed |
| Keystroke.PollsLawful | src/dll.c:362-386 | over any polls with changing targets, following the strokes gives the active rows of the remembered state and no stroke repeats what is believed |
| Keystroke.LawfulAlternates | src/dll.c:299-345 | successive strokes of one key alternate between down and up |
| Keystroke.LawfulFirst | src/dll.c:299-345 | the first stroke of a key is a press unless it was down at the start |
| Keystroke.DrainLawful | src/dll.c:291-350 | a drain is lawful and leaves a client that follows it with the target's rows |
| KeystrokeApi.ButtonsProper | src/dll.c:229-274 | the 33-row table satisfies the assumptions of the theory and covers every defined bit |
| KeystrokeApi.VirtualKeysDistinct | src/dll.c:229-274 | rows and virtual keys correspond one to one |
| KeystrokeApi.DrainLength | src/dll.c:229-350 | a drain between any two states takes at most 21 strokes |
| KeystrokeApi.StreamLaw | src/dll.c:218-386 | from the initial state, whatever the targets: strokes alternate starting with a press, replay gives the remembered state's rows, the state is well formed, and at most one direction per stick is down |
| KeystrokeApi.SessionPerIndex | src/dll.c:371-386 | however the polls of the four indices interleave, each index reports and remembers exactly what its own polls alone would |
| KeystrokeApi.SessionLaw | src/dll.c:218-386 | the stream law for every index of a fresh engine |
| KeystrokeApi.Engine.Scan | src/dll.c:299-345 | the scanning loop finds the first row active in one state and not in the other |
| KeystrokeApi.Engine.GetNextKeyStroke | src/dll.c:291-350 | the call computes the specified stroke, writes the record and one entry of the remembered states, or returns -1 and writes nothing |
| KeystrokeApi.Engine.Poll | src/dll.c:371-386 | the branch for one index: each of the three answers exactly when, the record, and the one remembered state |
| KeystrokeApi.Engine.GetKeystroke | src/dll.c:362-411 | the whole call with its error answers: which index is polled, up to how often, which poll is reported, and that everything else stays untouched |
| KeystrokeApi.StatusIff | src/dll.c:371-386 | not connected, empty and success, in terms of the pad's answer and of the active rows of both states |
| KeystrokeApi.FirstReportable | src/dll.c:387-408 | of several polls the first that has a differing row is the one that is reported |
| KeystrokeApi.AnyAsksFourTimes | src/dll.c:387-408 | of all calls for any index only the first four poll anything, each a different user index |
| Gamepad.GetPut | src/xinput.h:155-164 | a two-byte load sees the last store to its field and nothing of stores that do not overlap it |
| AxisBytes.ReversedThresholds | src/xinput_gamepad.c:482-496 | the thresholds of a complemented axis in terms of the raw value, and exactly the two raw values on which a plain and a complemented axis differ |
| Gamepad.CopyButtonsState | src/xinput_gamepad.c:498-541 | the in-place OR computes the button state of the record |
| Gamepad.ActiveIsPressed | src/xinput_gamepad.c:498-541 | the active table rows of the button state are exactly the keys that an independent decoding of the record calls down |
| Gamepad.ButtonStateWellFormedIff | src/xinput_gamepad.c:518-531 | a button state is well formed exactly when the reserved bit of the button word is clear |
| Translator.TranslateToButtons | src/linux_evdev/xinput_linux_evdev_translator.c:71-85 | a hat value sets one direction and clears the other by its sign |
| Translator.AbsEvent | src/linux_evdev/xinput_linux_evdev_translator.c:53-92 | an axis event rewrites the record as its item says |
| Values.TruncateInt | src/linux_evdev/xinput_linux_evdev_translator.c:53-69 | the stored word is the event's value wrapped into -32768 to 32767, and the value itself when it fits |
| Values.TruncateBytes | src/linux_evdev/xinput_linux_evdev_translator.c:53-60 | the two stored bytes are the value's last two digits to base 256 |
| Values.ComplementInt | src/linux_evdev/xinput_linux_evdev_translator.c:62-69 | a reversed axis holds minus one minus the value |
| Values.SignInt | src/linux_evdev/xinput_linux_evdev_translator.c:71-85 | the sign that a hat event takes is that of the integer |
| Values.SentIsStored | src/linux_evdev/xinput_linux_evdev_translator.c:53-92 | every 16-bit integer, sent as a 32-bit value, is stored as it is |
| Translator.KeyEvent | src/linux_evdev/xinput_linux_evdev_translator.c:94-109 | a key event in range sets or clears its bits, one out of range changes nothing |
| Bitmaps.TestIsShift | src/tools.h:91-94 | bits are numbered from the lowest of each byte |
| Bitmaps.BitClear | src/tools.h:96-99 | clearing a bit of a byte array changes that flag and no other |
| DeviceRun.ButtonsAreUnion | src/linux_evdev/xinput_linux_evdev_translator.c:53-109 | after any stream the button word is the union of the bits of the keys whose last value was not zero and of the hat directions given by the sign of the last hat value |
| DeviceRun.OwnerReads | src/linux_evdev/xinput_linux_evdev_translator.c:71-109 | each key and hat direction reads back on its own |
| DeviceRun.HatDirectionsExclude | src/linux_evdev/xinput_linux_evdev_translator.c:71-85 | the two directions of a hat axis are never set together |
| AxisBytes.SixAxesHold | src/linux_evdev/xinput_linux_evdev_translator.c:53-92 | every byte of the axis fields after any stream on a device with six named axes, spilled bytes included |
| AxisValues.SixAxesValues | src/linux_evdev/xinput_linux_evdev_translator.c:53-92 | the same in integers: triggers modulo 256, sticks wrapped to 16 bits, vertical ones as minus one minus the value, in terms of the integers the device sent |
| AxisBytes.RightTriggerIff | src/linux_evdev/xinput_linux_evdev_translator.c:53-60 | the right trigger reads back its last value exactly when no later left trigger event spilled another byte into it |
| AxisBytes.LeftStickIff | src/linux_evdev/xinput_linux_evdev_translator.c:53-60 | the left stick's horizontal axis reads back exactly when no later right trigger event spilled another byte into it |
| AxisBytes.TriggersSpill | src/linux_evdev/xinput_linux_evdev_translator.c:53-60 | two-event streams on which the two fields are wrong |
| Generic.NameKeys | src/linux_evdev/xinput_linux_evdev_generic.c:271-285 | the loop over the name table claims exactly the pads of the first-choice rule and removes the claimed keys |
| Generic.NameAxes | src/linux_evdev/xinput_linux_evdev_generic.c:289-319 | the four tests for named axes: items, found flags, and the key bits they clear |
| Generic.TakeHat | src/linux_evdev/xinput_linux_evdev_generic.c:323-357 | the first complete hat drives the d-pad when no key does |
| Generic.ServeKeys | src/linux_evdev/xinput_linux_evdev_generic.c:362-382 | leftover keys get the free pad bits in order, and the word is full exactly when there are enough keys |
| Generic.ServeAxes | src/linux_evdev/xinput_linux_evdev_generic.c:386-425 | the axis scan stays in its bit map exactly when all six axes were named or some axis bit survives; it then fills every missing flag |
| Generic.Translate | src/linux_evdev/xinput_linux_evdev_generic.c:235-430 | the whole allocator computes the closed form of verdict and tables |
| Generic.CanTranslate | src/linux_evdev/xinput_linux_evdev_generic.c:432-435 | the test answers with the verdict |
| Generic.NewInstance | src/linux_evdev/xinput_linux_evdev_generic.c:437-454 | a device is made exactly on acceptance, with the allocator's tables and a zeroed gamepad |
| Generic.Device.Read | src/linux_evdev/xinput_linux_evdev_generic.c:107-166 | one event is one step of the tables on the record in memory |
| Generic.Device.Update | src/linux_evdev/xinput_linux_evdev_generic.c:168-180 | the gamepad is copied out unchanged |
| Slots.SlotTable.Reader | src/xinput_service.c:322-389 | the reader thread publishes after each event the gamepad that the stream so far describes, under a packet number that counts the events modulo 2^32, and frees its slot at the end |
| AllocationTheorems.NamedIff | src/linux_evdev/xinput_linux_evdev_generic.c:66-92 | exactly which key codes are taken by name, with the second choice for the d-pad |
| AllocationTheorems.LeftIff | src/linux_evdev/xinput_linux_evdev_generic.c:271-319 | exactly which keys are left for first come, first served |
| AllocationTheorems.HatChoice | src/linux_evdev/xinput_linux_evdev_generic.c:323-357 | the hat in use is the first complete pair among HAT0 to HAT3 on a device without a d-pad key, and none exactly when there is no such pair or a d-pad key |
| AllocationTheorems.KeysApart | src/linux_evdev/xinput_linux_evdev_generic.c:271-382 | no two keys drive the same pad bit |
| AllocationTheorems.ButtonTableSound | src/linux_evdev/xinput_linux_evdev_generic.c:271-382 | a non-zero table entry is one pad bit, not the reserved one, on a key the device has |
| AllocationTheorems.ButtonTableInjective | src/linux_evdev/xinput_linux_evdev_generic.c:271-382 | two entries never share a bit |
| AllocationTheorems.FirstComeFirstServed | src/linux_evdev/xinput_linux_evdev_generic.c:362-382 | a leftover key drives a free pad bit exactly when as many leftover keys precede it as free bits precede the bit |
| AllocationTheorems.KeyDrivesIff | src/linux_evdev/xinput_linux_evdev_generic.c:289-382 | exactly when a key of the device drives a pad bit; keys with the code of a named axis never do |
| Devices.ClearedKeyRefuses | src/linux_evdev/xinput_linux_evdev_generic.c:289-319 | a device that is accepted without a left stick and refused with one |
| AllocationTheorems.HatAlone | src/linux_evdev/xinput_linux_evdev_generic.c:323-382 | with a hat in use no key drives a d-pad bit |
| AllocationTheorems.TablesOwned | src/linux_evdev/xinput_linux_evdev_generic.c:235-430 | in the tables of every device no bit has two owners and no axis store reaches the button word |
| AllocationTheorems.AcceptedByCounting | src/linux_evdev/xinput_linux_evdev_generic.c:269-429 | enough buttons exactly when claimed names, four for a hat, and leftover keys number at least fifteen |
| AllocationTheorems.AcceptedDrivesIff | src/linux_evdev/xinput_linux_evdev_generic.c:323-429 | an accepted device drives a pad bit other than the reserved one exactly when it is not left or right of a d-pad on the first hat of a device without a left trigger axis |
| Devices.VerdictIff | src/linux_evdev/xinput_linux_evdev_generic.c:359-429 | the verdict exactly, by looking for an axis and counting keys |
| Devices.ItemsAre | src/linux_evdev/xinput_linux_evdev_generic.c:289-417 | what each axis code does in the end, by code, offset and bit |
| Devices.HatMovesStick | src/linux_evdev/xinput_linux_evdev_generic.c:386-417 | without a left trigger axis the first hat's horizontal axis writes the left stick and no other byte |
| Devices.DeadDpad | src/linux_evdev/xinput_linux_evdev_generic.c:386-417 | an accepted device on which nothing drives left and right of the d-pad |
| Devices.HatOnly | src/linux_evdev/xinput_linux_evdev_generic.c:386-425 | named buttons and a d-pad hat as the only axes make the axis scan leave its bit map |
| Devices.AnnouncedUsableIff | src/linux_evdev/xinput_linux_evdev_generic.c:289-425 | exactly when an announced axis has an item its events can use: by name, by hat, or by the flag of a missing axis |
| Devices.AllStreamsFitIff | src/linux_evdev/xinput_linux_evdev_translator.c:87-92 | every stream a device can send has usable codes exactly when every announced axis has a use |
| Devices.UnusedHat | src/linux_evdev/xinput_linux_evdev_generic.c:323-357 | an accepted device whose hat, announced beside named d-pad keys, has no item |
| EndToEnd.DeviceStateWellFormed | src/xinput_gamepad.c:498-541 | whatever a generic device sends, its button state has only table bits and no opposite directions |
| EndToEnd.QuietIff | src/dll.c:362-386 | for a generic device no keystroke is reported exactly when the remembered state is the current one |
| EndToEnd.PadBitIff | src/linux_evdev/xinput_linux_evdev_generic.c:107-166 | each bit of the button word is set exactly when a key or hat direction that drives it is on |
| EndToEnd.ClientSeesGamepad | src/dll.c:291-386 | after any events, any earlier polls and a full drain: the remembered state is the current one and the client believes exactly the keys that the record says are down |
| EndToEnd.OwnerBelievedIff | src/linux_evdev/xinput_linux_evdev_generic.c:107-166 | every key or hat direction is the only source of its pad bit's key |
| EndToEnd.KeyBelievedIff | src/linux_evdev/xinput_linux_evdev_generic.c:107-166 | each mapped physical key is believed down exactly when its last event was not zero |
| EndToEnd.NamedKeyReported | src/linux_evdev/xinput_linux_evdev_generic.c:66-92 | a key taken by name is reported under the virtual key of that name and no other |
| EndToEnd.HatBelievedIff | src/linux_evdev/xinput_linux_evdev_generic.c:323-357 | each d-pad direction of a hat follows the sign of its axis' last value |
| EndToEnd.SticksBelievedIff | src/xinput_gamepad.c:498-541 | the believed stick directions are those of the last axis values, up to the spilled byte |
| EndToEnd.TriggersBelievedIff | src/xinput_gamepad.c:524-531 | the trigger keys follow the threshold on the bytes the triggers are left with |
| Reported.SticksReported | src/xinput_gamepad.c:482-541 | a stick's virtual key is believed down exactly when the integers last sent put the stick beyond 16384 in that direction and no other |
| Reported.TriggersReported | src/xinput_gamepad.c:524-531 | the trigger keys are believed down exactly above 32 |
| Reported.HatReported | src/linux_evdev/xinput_linux_evdev_generic.c:323-357 | the d-pad keys follow the signs of the integers last sent by the hat in use |
| Xboxpads.HandEvent | src/linux_evdev/xinput_linux_evdev_xboxpad.c:92-235 | the switch of the hand-written driver, in place |
| Xboxpads.TableEvent | src/linux_evdev/xinput_linux_evdev_xboxpad_2.c:145-166 | the table-driven step with its two key tables and its axis table |
| Xboxpads.EventAgreesIff | src/linux_evdev/xinput_linux_evdev_xboxpad.c:92-235 | exactly when the two drivers treat an event alike, for every event and every gamepad |
| Xboxpads.DeviceEventOrdinary | src/linux_evdev/xinput_linux_evdev_xboxpad_2.c:53-143 | keys that go up and down and 16-bit axis values are events on which the streams are compared |
| Xboxpads.DriversAgree | src/linux_evdev/xinput_linux_evdev_xboxpad_2.c:53-166 | on every ordinary stream the drivers agree on the buttons, the left trigger, and three stick axes |
| Xboxpads.DriversEqualIff | src/linux_evdev/xinput_linux_evdev_xboxpad_2.c:53-166 | after an ordinary stream the whole gamepads are equal exactly when no trigger event spilled a differing byte that is still visible |
| Xboxpads.DriversEqual | src/linux_evdev/xinput_linux_evdev_xboxpad_2.c:53-166 | in particular without trigger events |
| Xboxpads.TriggerTellsApart | src/linux_evdev/xinput_linux_evdev_xboxpad.c:165-174 | one trigger event can tell them apart |
| XboxGeneric.XboxKeyNamed | src/linux_evdev/xinput_linux_evdev_xboxpad_2.c:120-143 | the Xbox masks are the pad bits that the generic driver gives the same names |
| XboxGeneric.ThreeDrivers | src/linux_evdev/xinput_linux_evdev_xboxpad_2.c:53-166 | on streams of an Xbox pad the generic and the table-driven gamepads are equal, and the hand-written one is equal to them exactly when no trigger spilled a visible byte |
| XboxGeneric.WideSignInt | src/linux_evdev/xinput_linux_evdev_xboxpad.c:92-235 | the hand-written driver takes the sign of the whole value |
| Slots.SlotTable.NextFreeSlot | src/linux_evdev/xinput_linux_evdev.c:69-79 | the first slot without a device, or the slot count |
| Slots.SlotTable.DeviceInUse | src/linux_evdev/xinput_linux_evdev.c:140-151 | whether some slot's inode equals the argument after its conversion to int |
| Slots.SlotTable.Probe | src/linux_evdev/xinput_linux_evdev.c:164-517 | the rate-limited directory scan computes the specified table and mask, and says when it met a device that makes the allocator leave its bit map |
| Slots.SlotTable.DeviceClose | src/linux_evdev/xinput_linux_evdev.c:532-545 | one slot is freed and its inode forgotten |
| Slots.SlotTable.Initialize | src/linux_evdev/xinput_linux_evdev.c:547-553 | every slot is free and holds no inode |
| ProbeTimes.ProbeScansIff | src/linux_evdev/xinput_linux_evdev.c:186-193 | a probe scans exactly when the clock is five seconds or more past the last scan, or has gone back and not by almost all of 64 bits; otherwise nothing changes and the mask is empty |
| ProbeTimes.ScansIff | src/linux_evdev/xinput_linux_evdev.c:186-193 | over every run whose clock does not go back, a probe scans exactly when the clock shows five seconds and every scanning probe before is five seconds ago |
| ProbeTimes.ScansAnswer | src/linux_evdev/xinput_linux_evdev.c:186-516 | in such runs a scanning probe answers for the directory, any other changes and announces nothing |
| Slots.ConvertedInt | src/linux_evdev/xinput_linux_evdev.c:140-151 | the number compared has the inode's low 32 bits and repeats the highest of them above |
| Slots.UndefinedIff | src/linux_evdev/xinput_linux_evdev.c:465-478 | a scan becomes undefined exactly when it meets, with a slot free, an unrecognised device on which the allocator leaves its bit map |
| Slots.MaskIsFresh | src/linux_evdev/xinput_linux_evdev.c:193-516 | the mask is exactly the newly occupied slots; occupied slots keep their device |
| Slots.FreshOffered | src/linux_evdev/xinput_linux_evdev.c:465-502 | a newly occupied slot holds a device of the directory that the driver accepts |
| Slots.ScanComplete | src/linux_evdev/xinput_linux_evdev.c:193-506 | in a scan that stays defined an acceptable device is left out only when every slot is occupied or its converted inode is in the table, and only in the first case when the inode survives the conversion and is not the free mark |
| Slots.HatOnlyProbe | src/linux_evdev/xinput_linux_evdev.c:473-478 | a directory with one device on which the allocator leaves its bit map makes the probe undefined |
| Slots.RecognisedIff | src/linux_evdev/xinput_linux_evdev.c:140-151 | a device in the table is always recognised exactly when its inode survives the conversion |
| Slots.NotMistaken | src/linux_evdev/xinput_linux_evdev.c:140-151 | a device whose inode survives the conversion counts as in use only if the table has its inode |
| Slots.WideInodeAgain | src/linux_evdev/xinput_linux_evdev.c:140-151 | a device whose inode does not survive takes another slot on each probe, from any table without the converted number |
| Slots.WideInodeTwice | src/linux_evdev/xinput_linux_evdev.c:140-151 | so every such device takes two slots in two probes of the initial table, unless its number converts to the free mark |
| Slots.MarkNeverTaken | src/linux_evdev/xinput_linux_evdev.c:140-151 | a device whose inode converts to the free mark is never taken |
| Slots.SlotsOverRuns | src/linux_evdev/xinput_linux_evdev.c:164-545 | over all runs of probes and closes occupied slots hold different devices and the masks announce exactly the occupied slots, none twice |
| Idle.ServiceThread.Pass | src/xinput_service.c:441-476 | one pass of the loop, in place |
| Idle.StopsIffAbandoned | src/xinput_service.c:435-482 | for every clock that does not go back, the thread stops exactly at the look that completes the given number of looks in a row each of which finds a gap of more than a period since the last poke |
| Idle.ChainIff | src/xinput_service.c:447-453 | a look is fresh exactly when no two neighbouring events from the last poke to the look are more than a period apart |
| Idle.PokesDecideIff | src/xinput_service.c:447-453 | a look's freshness differs from what the last client poke alone says exactly when that poke is more than a period ago and no two neighbours since then are |
| Idle.StopsIffDeserted | src/xinput_service.c:435-482 | with looks more than a period apart, the looks that count are those without a client poke in the period before |
| Idle.StrikeIff | src/xinput_service.c:441-476 | with any clock: a strike exactly more than five seconds after the stored time, and what each look stores and counts |
| Idle.LateLook | src/xinput_service.c:470-475 | a poke between the reading of the clock and the comparison costs no strike and stops nothing |
| Idle.PokedGoesOn | src/xinput_service.c:447-453 | while every look has a poke in the period before it no strike is counted, however close the looks are |
| Idle.LonelyStops | src/xinput_service.c:454-468 | without pokes the thread stops within one look more than the strikes |
| Idle.LonelyCount | src/xinput_service.c:454-468 | the exact number of strikes after the last poke |
| Idle.NeverPoked | src/xinput_service.c:454-468 | on a segment that no client ever pokes every look is a strike, and the thread stops exactly when the looks reach the strikes |
| Idle.NoStrikesNoStop | src/xinput_service.c:441 | without strikes to give the thread never stops, whatever the clock does |
| Idle.KeepsItselfGoing | src/xinput_service.c:447-453 | after a single poke at any time, looks exactly one period apart never count a strike |
| Client.Process.Connect | src/xinput_gamepad.c:272-338 | called only when disconnected; leaves all three handles open on success and none otherwise |
| Client.Process.Disconnect | src/xinput_gamepad.c:160-178 | closes exactly what is open |
| Client.Process.IsAlive | src/xinput_gamepad.c:186-270 | the owner is the first set value of up to six reads; alive means set, not broken and able to be signalled, or the own process; the unguarded access faults exactly when this process is the service and nothing is mapped |
| Client.OwnerLivesIff | src/xinput_gamepad.c:211-243 | a live owner is found exactly when some read meets the id of a process that can be signalled after only zeros; never with fields that are zero or broken |
| Client.EndsIff | src/xinput_gamepad.c:391-413 | exactly which attempt ends the initialisation |
| Client.Process.Init | src/xinput_gamepad.c:372-435 | ends connected at the first attempt that finds a live owner; every other attempt leaves nothing open |
| Client.Process.Probe | src/xinput_gamepad.c:340-370 | exactly when it faults, and exactly when the client is connected afterwards |
| Client.ProbesUntilFault | src/xinput_gamepad.c:193-195 | a run of two probes that ends in the unguarded access |
| Client.Process.Finalize | src/xinput_gamepad.c:437-456 | closes everything once, and nothing when not initialised |

## Left out

- ServiceProtocol: the imperative code of the service is a transition system, one constructor per
  position, because what matters is the interleaving; process ids are not reused, liveness is visible to
  everyone, and one server thread runs per process.
- Sizes of shared segments: a segment that is mapped before it has been given its size is not modelled,
  nor is an mmap that fails with its error address instead of a null pointer.
- KeystrokeApi.Engine.GetKeystroke: the counter of the branch for any index is unbounded; its overflow
  after 2^31 calls is undefined in the source.
- Generic.ServeAxes: what the source reads behind the end of the axis bit map is undefined; the model
  stops with `Overrun`.
- Generic.Translate: the byte of axis flags is kept in the low bits of a word, and the stored callbacks
  are constructors of `Item`.
- AxisBytes.SixAxesHold: stated for devices with all six named axes. `ItemsAre` gives the axis table of
  every device, but whole streams through the fallback's items are not followed.
- Axis events on codes without an item: the source calls a null pointer there, so the theorems about
  streams take mapped codes; `AllStreamsFitIff` says on which devices that is no restriction.
- Slots.SlotTable.Probe: directory reading, ioctl calls, grabbing and file names are the fields of a
  directory entry; the per-probe list of seen inodes is left out because it never skips a device. A
  device that makes the allocator leave its bit map ends the scan, because what follows is undefined.
- Slots.SlotsOverRuns: the end of a reader thread is one close, without the window in which the thread
  has closed the slot and not yet cleared its own fields.
- Idle.ServiceThread.Pass: the endless loop around the pass, the probe and the sleep; the theorems take
  looks and pokes as events.
- Copying the record out to a client, and torn reads: the semaphore is compiled out.
- Rumble and force feedback, daemon start, read and write loops, dumps and name tables, Windows entry
  points, console and window tools, and calls with constant answers.
- src/xinput1_3_main.c repeats src/dll.c, and src/linux_joystick is marked as not to be built.
