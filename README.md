# ShuttleXpress report decoder

A model of the event decoder of the node-shuttlexpress driver. The ShuttleXpress
jog/shuttle controller sends a 5-byte HID report whenever its state changes.
The driver keeps a queue of reports in `buffers`. On each delivery it pushes the
new report and compares it with the previous one in `_getShuttleEvent`. That
method returns one event (`JOG`, `BTN_1` to `BTN_5` or `INCREMENT`, each with
its `raw` byte) or `null`, then shifts the previous report out of the queue.

Files:

- `Wrappers.dfy`: the `Option` type. `None` is the driver's `null`.
- `ShuttleEvents.dfy`: the report layout (`Byte`, `Report`) and the `Event`
  type, with the source's constants. It also holds the decoding written as
  pure functions (`JogEvent`, `ButtonEvent` over a list of press/release tests,
  `IncrementEvent`, `Classify`) and the lemmas about them.
- `ShuttleXpress.dfy`: the class `ShuttleXpress`. Its field `buffers` is a
  sequence of 5-byte arrays. `GetShuttleEvent` is the code as written: it
  reassigns `shuttleEvent` one `if` at a time, writes the handled fields back
  into the `previous` array, and shifts the queue. `OnData` is the body of the
  `data` handler: it pushes the report, decodes it and returns the event.
  `GetShuttleEvent` is proved equal to `Classify`.

The event kinds map to the source's `cmd` strings like this:
- `Jog(value, raw)` is `"JOG"`.
- `Button(n, pressed, raw)` is `"BTN_n"`, and `pressed` is its `value`.
- `Increment(delta, raw)` is `"INCREMENT"`.

The code differs from a reading in which the decoder keeps one "previous"
report and updates it field by field. The branches do write fields of
`previous` (lines 105-106, 124-125, 134-135, 153). But line 159 then drops that
array from the queue. So the next delivery is compared with the whole report
just delivered, and those writes have no effect. The model follows the code:
- `GetShuttleEvent`'s contract says what the discarded array holds
  (`PreviousAfter`).
- `OnData`'s contract says that the report carried forward is the delivered one.
- `PreviousWritesAreDiscarded` gives an input where comparing against the
  mutated array would decode a different event.

## Model

| member | source | states |
|---|---|---|
| `ShuttleEvents.JogEvent` | ShuttleXpress.js:97-103 | a changed jog code gives an event exactly when it is in 0..7 or 249..255; the event is a JOG whose raw byte is the code and whose value is in -7..7 and congruent to the code modulo 256 |
| `ShuttleEvents.JogZones` | ShuttleXpress.js:82-103 | 0 gives JOG 0; 1..7 give JOG with the same value; 249..255 give JOG code-256 (255 is -1, 249 is -7); 8..248 give no event |
| `ShuttleEvents.JogRoundTrip` | ShuttleXpress.js:97-103 | every position in -7..7, sent as its two's-complement code, is decoded back to that position |
| `ShuttleEvents.JogCodeOfEvent` | ShuttleXpress.js:97-103 | every recognised jog code is the two's-complement code of the position it reports |
| `ShuttleEvents.LastMatchIndex` | ShuttleXpress.js:112-122 | the result is the index of a matching test that has no matching test after it, or none when no test matches |
| `ShuttleEvents.ButtonEvent` | ShuttleXpress.js:112-132 | no button event exactly when none of the press/release tests matches; otherwise a button event whose raw byte is the current byte and whose button and direction are those of a matching test |
| `ShuttleEvents.ButtonEventReverseOrder` | ShuttleXpress.js:112-122 | the last matching test in the order press/release of buttons 1..4 wins: release of 4 beats press of 4, which beats release of 3, and so on; none when no test matches; raw is always the current byte, even for a release |
| `ShuttleEvents.ButtonPressThenRelease` | ShuttleXpress.js:112-122 | for each button 1..4, going from 0 to its mask is that button pressed, and from its mask to 0 is that button released with raw 0 |
| `ShuttleEvents.ButtonNoSingleMask` | ShuttleXpress.js:112-122 | when neither the previous nor the current button byte is one of 16/32/64/128 (for example 48 from 0), no button event is decoded |
| `ShuttleEvents.Button5Cases` | ShuttleXpress.js:131-132 | on a changed byte 4: BTN_5 pressed when it is now 1, released when it was 1, otherwise no event |
| `ShuttleEvents.IncrementEvent` | ShuttleXpress.js:139-151 | the increment event is absent exactly when the counter is unchanged; otherwise it is an INCREMENT whose raw byte is the current counter and whose value is +1 or -1; it is +1 exactly when the counter rose, except for the wrap between 0 and 255, where the direction is reversed (255 to 0 is +1, 0 to 255 is -1) |
| `ShuttleEvents.IncrementOneStep` | ShuttleXpress.js:143-150 | a one-step move of the counter up or down modulo 256 gives +1 or -1, including 255 to 0 (+1) and 0 to 255 (-1) |
| `ShuttleEvents.IncrementDirections` | ShuttleXpress.js:147-150 | 10 to 20 is +1, 20 to 10 is -1, 1 to 255 is +1 and 254 to 0 is -1 |
| `ShuttleEvents.IncrementAntisymmetric` | ShuttleXpress.js:143-150 | reversing a change of the counter reverses the direction reported |
| `ShuttleEvents.Classify` | ShuttleXpress.js:93-157 | an event's raw byte is the current value of the field it came from; that field changed; every field before it in the order 0, 3, 4, 1 is unchanged; when byte 0 changed the result is a JOG event or none |
| `ShuttleEvents.PreviousAfter` | ShuttleXpress.js:105-153 | the written-back previous report takes byte 1 from the current report, keeps byte 2, and takes each other byte from one of the two reports; after a jog change it takes byte 0 from the current report and keeps bytes 3 and 4; after a button change it takes byte 3 from the current report and keeps byte 4; when bytes 0 and 3 are unchanged it takes byte 4 from the current report |
| `ShuttleEvents.JogPriority` | ShuttleXpress.js:93-106 | when byte 0 changed, the result is the jog event or none, whatever bytes 1 to 4 hold |
| `ShuttleEvents.ButtonPriority` | ShuttleXpress.js:108-125 | when byte 0 is unchanged and byte 3 changed, the result is the button 1-4 event, whatever bytes 1, 2 and 4 hold |
| `ShuttleEvents.Button5Priority` | ShuttleXpress.js:127-135 | when bytes 0 and 3 are unchanged and byte 4 changed, the result is the button 5 event, whatever bytes 1 and 2 hold |
| `ShuttleEvents.IncrementPriority` | ShuttleXpress.js:137-157 | when bytes 0, 3 and 4 are unchanged, the result is the increment event of byte 1, so any change of byte 1 is reported as an INCREMENT |
| `ShuttleEvents.IncrementOnlyWhenOthersUnchanged` | ShuttleXpress.js:137-157 | an INCREMENT event occurs only when bytes 0, 3 and 4 are unchanged, and is then the increment event of byte 1 |
| `ShuttleEvents.NoChangeNoEvent` | ShuttleXpress.js:137-157 | when bytes 0, 1, 3 and 4 equal the previous report's, the result is none |
| `ShuttleEvents.ByteTwoIgnored` | ShuttleXpress.js:93-157 | changing byte 2 of either report never changes the result |
| `ShuttleEvents.SameReportTwice` | ShuttleXpress.js:93-157 | a report compared with itself gives no event |
| `ShuttleEvents.AbsorbedJogAdvancesState` | ShuttleXpress.js:99-106 | jog code 100 gives no event, and the next report is still compared with it, so a following counter move from 10 to 50 is INCREMENT +1 |
| `ShuttleEvents.PreviousWritesAreDiscarded` | ShuttleXpress.js:105-159 | writing the handled fields back into the previous report leaves it unequal to the current one; comparing against it would give a release of button 1 where the code, comparing against the delivered report, gives none |
| `ShuttleXpress.ShuttleXpress.constructor` | ShuttleXpress.js:23-24 | the queue starts with exactly one all-zero report |
| `ShuttleXpress.ShuttleXpress.GetShuttleEvent` | ShuttleXpress.js:71-164 | the sequentially assigned event equals `Classify` of the previous and the current report; the previous array ends up holding `PreviousAfter` of the two; the queue is shifted to hold only the current report, which is left unchanged |
| `ShuttleXpress.ShuttleXpress.OnData` | ShuttleXpress.js:40-44 | after a delivery the queue holds exactly one report, a fresh copy of the delivered one; the event returned is `Classify` of the report held before and the delivered one |
| `ShuttleXpress.DeliverTwice` | ShuttleXpress.js:41-42 | a fresh decoder compares its first report with the all-zero report, and delivering the same report again yields no event |
| `ShuttleXpress.PressAndReleaseButton1` | ShuttleXpress.js:112-113 | on a fresh decoder, report [0,0,0,16,0] gives BTN_1 pressed (raw 16), then the all-zero report gives BTN_1 released (raw 0) |

## Left out

- Device discovery and opening (`new HID.HID`, `HID.devices()`, `getDeviceInfo`, lines 7, 27, 58-69): these are calls into a native library.
- The EventEmitter wiring (`emit` of `event`, `error` and `connect`, `process.nextTick`, lines 14, 31, 40-54): this is asynchronous delivery. `OnData` models only the synchronous body of the `data` handler and returns the event instead of emitting it.
- `debug` logging (lines 3-4, 95, 110, 129, 141, 161): it only prints.
- The module-level instance and its console handlers (lines 168-181), and `examples/example.js`: these are console glue.
- `Buffer.toJSON().data` (lines 24, 41): a report is modelled directly as five bytes in 0..255, copied into a fresh array.
- Reports of a length other than five: the device always sends five bytes. The JavaScript would compare `undefined` fields, and that behaviour is not modelled. `OnData` requires a 5-byte report.
- The `buffers` argument of `_getShuttleEvent`: the model's method does not take the queue as a parameter. The source passes `this.buffers` (line 42), which is the same object it later shifts at line 159, so the method works on the field directly.
