# Step sequencer engine, modelled in Dafny

This project models the playback and routing engine of a small browser step sequencer. The engine is a
grid of 4 tracks by 16 steps ("quarters") of pads, driven by an interval timer, and it sends its notes as
MIDI messages to the devices the tracks are bound to. The model has two parts.

- `sequencer.dfy` (module `SequencerEngine`) models the transport and pattern engine of
  `js/V2Sequencer.js` as the class `Sequencer`:
  - The state:
    - the pad grid is an `array2<Pad>` of `{velocity, active}` records;
    - the run state is the timer handle, the wake lock and the current step;
    - the tempo, velocity and volume controls;
    - the edit cursor.
  - The operations:
    - validated control updates and the pad-click rule;
    - note-on and note-off dispatch with its per-tick delay counter;
    - the timer tick;
    - play, stop, cleanup and reset;
    - pattern snapshots (`getConfig`/`setConfig`);
    - the velocity-to-lightness colour mapping.
- `output.dfy` (module `SequencerOutput`) models the output router of `js/V2SequencerOutput.js` as the
  class `Output`:
  - The state: an `array<Track>` of bindings, each `{device, deviceName, channel, note}`.
  - The operations:
    - the select, disconnect and note handlers;
    - copying a picked device to unbound tracks, and re-binding by device name;
    - the one-per-(device, channel) broadcast of System Reset and Control Change;
    - `sendNote`;
    - binding snapshots.
- `midi.dfy` (module `Midi`) holds the byte layout of the messages the router builds. A reference parser
  reads them as a MIDI 1.0 receiver does: Note On 0x9n, Note Off 0x8n and Control Change 0xBn with two
  data bytes; System Reset 0xFF; Channel Volume is CC 7 and All Notes Off is CC 123.
- `wrappers.dfy` holds `Option`.

Every MIDI message the router sends is appended to the ghost sequence `Output.trace` as
`Sent(device id, bytes, delay)`. The delay is `None` for "send now" and `Some(d)` for "timestamp now + d".
Every state-changing method that stands for an operation of the source is specified by its complete new state and by what it appends to the trace,
in terms of value-level functions:
- `Calls` is the `sendNote` requests of one dispatch loop;
- `Sends` and `NoteMessages` are the messages those requests produce;
- `Pairs`, `Broadcasts` and `BroadcastTo` are the unique (device id, channel) pairs and one broadcast to them.

The properties of those functions are proved as lemmas:
- the requests of one dispatch loop name exactly the dispatched tracks, in track order, with delays 0, 1, 2, …;
- within one dispatch loop, the messages actually sent leave at strictly increasing offsets;
- across the two loops of one tick they do not: both number their requests' delays from 0, 1, 2, …
  (`CallsSound`), so the messages of the k-th note-off request and of the k-th note-on request of a
  tick share offset k. In particular a bound track 0 that sounds at the old step and has a note at the
  new one gets its Note Off and its Note On both without a timestamp, back to back (`TickCollision`);
- each pair is addressed exactly once;
- the step pointer visits all 16 steps in order with no repeat;
- the colour mapping runs from 70 down to 10 and never increases with the velocity;
- snapshot round trips keep velocities, tempo, channels, notes and the names of bound devices;
- a disconnected device is re-bound by name.

The class invariant `Sequencer.Valid()` holds between operations. It says that only the pads of the
current step may be sounding, and that every control is within its range. `Stop` leaves no pad
sounding, and `TimerHandler` leaves exactly the pads of the new step that have a velocity sounding.

Quirks of the code that the model keeps:
- `play` has no guard against an armed timer. It takes the wake lock (when the host offers one) before
  the note-ons, and then arms a new timer.
- `stop` disarms, releases and cleans up (note-offs, step 0, All Notes Off) even when nothing is playing.
- `setConfig` cleans up through `cleanupPlay`. The step therefore goes back to 0, with note-offs for the
  old step and an All Notes Off. When a timer is armed, the note-ons of step 0 are sent on the new
  bindings.
- `#reset` itself does not notify listeners. The Reset button does, after the reset (`ResetClick`).
- The two dispatch loops of a tick each restart their delay counter at 0 (js/V2Sequencer.js:433 and :449).
  The comment at js/V2Sequencer.js:445-448 asks for consecutive messages to be one millisecond apart,
  but the k-th note-off request of the old step and the k-th note-on request of the new step share
  offset k; for track 0 both leave with no delay (`TickCollision`).
- Picking a device copies it only to unbound tracks, so a track that is already bound keeps its old
  device, even the track whose select was used (js/V2SequencerOutput.js:81 and :233-234).
- `getConfig` of the router exports a device name only for a bound track. An unbound track that
  remembers a name loses that name in a snapshot round trip (`TrackConfigRoundTrip`).

## Model

| member | source | states |
|---|---|---|
| Midi.WithChannel | js/V2SequencerOutput.js:286 | OR-ing the channel into the status keeps the status nibble and puts the channel index in the low nibble; with no channel selected (-1) the result is -1, not a status byte |
| Midi.NoteOnBytes | js/V2SequencerOutput.js:300 | the three bytes read back as a Note On on the track's channel with the note and velocity; with no channel selected they are not a valid message |
| Midi.NoteOffBytes | js/V2SequencerOutput.js:303 | the bytes read back as a Note Off with release velocity 64 |
| Midi.ControlChangeBytes | js/V2SequencerOutput.js:286 | the bytes read back as a Control Change of the given controller and value on the channel |
| Midi.SystemResetBytes | js/V2SequencerOutput.js:280 | the single byte reads back as System Reset |
| SequencerOutput.UpdatedNote | js/V2SequencerOutput.js:124-126 | a missing note or one outside 0..127 keeps the prior note; any other replaces it |
| SequencerOutput.SelectIndex | js/V2SequencerOutput.js:327 | setting the channel select's index keeps an index 0..15 and yields -1 (nothing selected) for any other value |
| SequencerOutput.NoteMessages | js/V2SequencerOutput.js:290-304 | nothing for an unbound track; otherwise one message to the track's device, a Note On for velocity > 0 and a Note Off (velocity 64) otherwise, timestamped exactly when the delay is not 0 |
| SequencerOutput.Sends | js/V2SequencerOutput.js:290-304 | a sequence of `sendNote` requests sends at most one message per request |
| SequencerOutput.SendsStaggered | js/V2SequencerOutput.js:295-303 | requests with non-negative, strictly increasing delays produce messages at strictly increasing offsets, none later than the last request's delay |
| SequencerOutput.BoundKeys | js/V2SequencerOutput.js:267-273 | the keys of the bound tracks carry channel indices -1..15 |
| SequencerOutput.BoundKeysExact | js/V2SequencerOutput.js:267-273 | a key is collected exactly when some bound track has it |
| SequencerOutput.Dedup | js/V2SequencerOutput.js:265-275 | the `Map`'s keys are no more than the keys inserted |
| SequencerOutput.DedupExact | js/V2SequencerOutput.js:265-275 | the `Map`'s key order keeps every key and repeats none |
| SequencerOutput.UniqueMapSkip | js/V2SequencerOutput.js:268-269 | an unbound track leaves the `Map` unchanged |
| SequencerOutput.UniqueMapSet | js/V2SequencerOutput.js:271-272 | `Map.set`: a new key is appended, an existing key keeps its position and takes the later track |
| SequencerOutput.Pairs | js/V2SequencerOutput.js:264-276 | the broadcast pairs carry channel indices -1..15 |
| SequencerOutput.PairsExact | js/V2SequencerOutput.js:264-276 | the broadcast pairs are exactly the keys of the bound tracks, without duplicates |
| SequencerOutput.OncePerPair | js/V2SequencerOutput.js:264-288 | every (device id, channel) of a bound track occurs once among the pairs, however many tracks share it; no other pair occurs |
| SequencerOutput.BroadcastMessage | js/V2SequencerOutput.js:278-288 | a broadcast message reads as System Reset, or as the Control Change of the controller and value on the pair's channel; with no channel selected it is no Control Change |
| SequencerOutput.Broadcasts | js/V2SequencerOutput.js:278-288 | one message per pair |
| SequencerOutput.BroadcastsAddressed | js/V2SequencerOutput.js:278-288 | the n-th message goes to the n-th pair's device, with the bytes for its channel and no timestamp |
| SequencerOutput.BroadcastTo | js/V2SequencerOutput.js:278-288 | a broadcast sends as many messages as there are unique pairs |
| SequencerOutput.FirstNamed | js/V2SequencerOutput.js:254-261 | finds the first listed device with the name, or reports that none has it |
| SequencerOutput.AssignTrack | js/V2SequencerOutput.js:247-262 | a bound track, or an unbound one with no remembered name, is unchanged; an unbound one with a name keeps name, channel and note, is bound exactly when some listed device has that name, and then to the first such device |
| SequencerOutput.ExportTrack | js/V2SequencerOutput.js:310-314 | a snapshot entry keeps channel index and note, and holds a device name exactly when the track is bound, the bound device's name |
| SequencerOutput.RestoreTrack | js/V2SequencerOutput.js:323-329 | restoring an entry unbinds the track and keeps the binding invariant |
| SequencerOutput.TrackConfigRoundTrip | js/V2SequencerOutput.js:306-332 | restoring a track's own snapshot keeps channel and note, keeps a bound track's name and binds it again when its device is listed, and drops an unbound track's remembered name |
| SequencerOutput.Reconnect | js/V2SequencerOutput.js:74-92 | after a disconnect the track keeps its name, stays unbound while no device of that name is listed, and is re-bound to a device of that name once one is listed, whether or not it is the same device |
| SequencerOutput.DefaultTrack | js/V2SequencerOutput.js:213-229 | a default track is unbound with no remembered name, channel index 0 and note 60 + its index, and satisfies the binding invariant for the four tracks |
| SequencerOutput.Output.constructor | js/V2SequencerOutput.js:213 | every track starts unbound with channel index 0 and note 60 + its index; nothing sent |
| SequencerOutput.Output.NoteUpdate | js/V2SequencerOutput.js:124-145 | the track's note becomes `UpdatedNote`; other tracks unchanged; a notification only for an accepted, non-silent update |
| SequencerOutput.Output.SelectChannel | js/V2SequencerOutput.js:116-119 | the track's channel index changes and listeners are notified |
| SequencerOutput.Output.Reset | js/V2SequencerOutput.js:217-229 | every track back to its default binding |
| SequencerOutput.Output.ResetClick | js/V2SequencerOutput.js:17-25 | the router's Reset button does what `Reset` does, then notifies once; nothing sent |
| SequencerOutput.Output.CopyDevice | js/V2SequencerOutput.js:231-240 | every unbound track is bound to the device, by its name; bound tracks unchanged |
| SequencerOutput.Output.Select | js/V2SequencerOutput.js:79-88 | picking a device copies it to every unbound track; clearing unbinds this track only; always one notification |
| SequencerOutput.Output.Disconnect | js/V2SequencerOutput.js:90-92 | the track is unbound and keeps its device name |
| SequencerOutput.Output.AssignDevice | js/V2SequencerOutput.js:247-262 | the track becomes `AssignTrack` of itself; other tracks unchanged |
| SequencerOutput.Output.AssignDevices | js/V2SequencerOutput.js:242-245 | every track becomes `AssignTrack` of itself |
| SequencerOutput.Output.UniqueTracks | js/V2SequencerOutput.js:264-276 | one bound track per unique pair, in order of first appearance, and for each the last track with that pair |
| SequencerOutput.Output.SendBroadcast | js/V2SequencerOutput.js:278-288 | the trace grows by exactly the broadcast to the unique pairs |
| SequencerOutput.Output.SendSystemReset | js/V2SequencerOutput.js:278-281 | one System Reset per unique pair |
| SequencerOutput.Output.SendControlChange | js/V2SequencerOutput.js:283-288 | one Control Change per unique pair, on the pair's channel |
| SequencerOutput.Output.SendNote | js/V2SequencerOutput.js:290-304 | the trace grows by exactly `NoteMessages` of the track |
| SequencerOutput.Output.GetConfig | js/V2SequencerOutput.js:306-320 | per track the channel index and note, and the device name only when bound |
| SequencerOutput.Output.SetConfig | js/V2SequencerOutput.js:322-332 | each track is unbound, takes name, channel and note from its entry, and is then re-bound by name; no notification |
| SequencerEngine.IntervalMs | js/V2Sequencer.js:476-477 | the timer period times the tempo is 15000 ms |
| SequencerEngine.Next | js/V2Sequencer.js:464-466 | the step after q is (q + 1) mod 16 |
| SequencerEngine.Advance | js/V2Sequencer.js:460-470 | any number of ticks keeps the step within 0..15 |
| SequencerEngine.AdvanceWraps | js/V2Sequencer.js:464-466 | after n ticks from q the step is (q + n) mod 16 |
| SequencerEngine.Distance | js/V2Sequencer.js:464-466 | the ticks from one step to another number 0..15 |
| SequencerEngine.TicksNoRepeat | js/V2Sequencer.js:460-470 | 16 consecutive ticks reach 16 different steps |
| SequencerEngine.TicksReach | js/V2Sequencer.js:460-470 | every step is reached from every step |
| SequencerEngine.TicksPeriod | js/V2Sequencer.js:460-470 | 16 ticks return to the starting step |
| SequencerEngine.LightnessFloor | js/V2Sequencer.js:403-404 | the lightness formula, evaluated over exact reals, floors to 10 + 60·(127 − v) div 127 |
| SequencerEngine.VelocityLightness | js/V2Sequencer.js:402-406 | the lightness is 10 + 60·(127 − v) div 127, within 10..70 |
| SequencerEngine.LightnessDecreasing | js/V2Sequencer.js:402-406 | the lightness never increases with the velocity: 70 at velocity 0 and 10 at velocity 127 |
| SequencerEngine.PadLightness | js/V2Sequencer.js:244-257 | a pad with a velocity takes `VelocityLightness` of it, within 10..70 for a MIDI velocity; a silent pad is 96 in the second and fourth group of four steps and 100 otherwise |
| SequencerEngine.Calls | js/V2Sequencer.js:432-458 | no more requests than tracks, each naming one of the tracks |
| SequencerEngine.CallsSound | js/V2Sequencer.js:432-458 | each request names a dispatched pad (active for note-offs, velocity > 0 for note-ons), carries its position as delay and the pad's velocity (0 for note-off), in strictly increasing track order, so at most one request per track |
| SequencerEngine.CallsComplete | js/V2Sequencer.js:432-458 | every dispatched pad gets a request |
| SequencerEngine.CallsAgree | js/V2Sequencer.js:432-458 | the requests depend only on the active flags (note-offs) or the velocities (note-ons) |
| SequencerEngine.DispatchStaggered | js/V2Sequencer.js:445-457 | within one dispatch, the messages actually sent leave at strictly increasing offsets |
| SequencerEngine.TickCollision | js/V2Sequencer.js:432-470 | track 0, when bound to a device, sounding at the old step and with a note at the new one, gets a Note Off and a Note On to the same device in one tick, both without a timestamp |
| SequencerEngine.ClampVolume | js/V2Sequencer.js:101-105 | the volume is clamped to 0..127 |
| SequencerEngine.Sequencer.constructor | js/V2Sequencer.js:37-46 | tempo 120, velocity 64, volume 100, no edit cursor, no timer or wake lock, step 0, all pads silent, default router |
| SequencerEngine.Sequencer.BpmUpdate | js/V2Sequencer.js:155-169 | a missing tempo or one outside 20..999 changes nothing; an accepted one is stored, notifies unless silent, and re-arms an armed timer at the new period without moving the step |
| SequencerEngine.Sequencer.VelocityUpdate | js/V2Sequencer.js:308-317 | a velocity outside 1..127 is ignored; an accepted one is written to the edit-cursor pad only when not suppressed and a cursor is set; no other pad changes |
| SequencerEngine.Sequencer.VolumeUpdate | js/V2Sequencer.js:97-110 | the clamped volume is stored and broadcast as Channel Volume to every unique pair |
| SequencerEngine.Sequencer.PadMouseDown | js/V2Sequencer.js:275-293 | always notifies; a silent pad takes the velocity control; the sounding pad under the cursor is cleared and the cursor stays; another sounding pad loads its velocity; otherwise the cursor moves to the pad; no other pad changes |
| SequencerEngine.Sequencer.SendNotesOff | js/V2Sequencer.js:432-442 | exactly the note-offs `Calls` describes for the current step are sent; its pads become inactive; nothing is sounding afterwards |
| SequencerEngine.Sequencer.ReleaseTrack | js/V2Sequencer.js:435-440 | an active pad sends a note-off at the current delay, becomes inactive and counts the delay up |
| SequencerEngine.Sequencer.SendNotes | js/V2Sequencer.js:444-458 | exactly the note-ons `Calls` describes for the current step are sent; the pads with a velocity there become active; velocities unchanged |
| SequencerEngine.Sequencer.StrikeTrack | js/V2Sequencer.js:451-456 | a pad with a velocity sends a note-on at the current delay, becomes active and counts the delay up |
| SequencerEngine.Sequencer.TimerHandler | js/V2Sequencer.js:460-470 | note-offs for the old step, then the step advances mod 16, then note-ons for the new step; afterwards exactly the pads of the new step with a velocity are sounding |
| SequencerEngine.Sequencer.SetTimer | js/V2Sequencer.js:472-478 | a fresh timer at the current tempo's period replaces any armed one |
| SequencerEngine.Sequencer.Play | js/V2Sequencer.js:480-505 | takes the wake lock when supported, sends the current step's note-ons and arms a fresh timer, whether or not one was armed |
| SequencerEngine.Sequencer.ReleaseWakeLock | js/V2Sequencer.js:507-514 | no wake lock is held afterwards |
| SequencerEngine.Sequencer.CleanupPlay | js/V2Sequencer.js:516-524 | note-offs for the current step, step 0, then one All Notes Off per unique pair; nothing sounding |
| SequencerEngine.Sequencer.Stop | js/V2Sequencer.js:526-538 | no timer, no wake lock, step 0, nothing sounding, and the trace grows by the note-offs and one All Notes Off per unique pair, also when not playing |
| SequencerEngine.Sequencer.WakeLockReleased | js/V2Sequencer.js:494-497 | losing the wake lock stops playback as `Stop` does |
| SequencerEngine.Sequencer.TogglePlayback | js/V2Sequencer.js:384-392 | Space stops when a timer is armed and plays otherwise, with the effects of `Stop` and `Play`, a fresh timer handle only when it plays |
| SequencerEngine.Sequencer.Reset | js/V2Sequencer.js:408-420 | System Reset to every unique pair, stop, no edit cursor, volume 100 broadcast, tempo 120 silently, velocity 64, every pad silent; no notification |
| SequencerEngine.Sequencer.RestoreControls | js/V2Sequencer.js:412-419 | the controls return to their defaults and every pad is silent; only the Channel Volume broadcast is sent |
| SequencerEngine.Sequencer.ClearVelocities | js/V2Sequencer.js:417-419 | every pad's velocity becomes 0 |
| SequencerEngine.Sequencer.ResetClick | js/V2Sequencer.js:62-70 | the Reset button does what `Reset` does, then notifies once |
| SequencerEngine.Sequencer.GetConfig | js/V2Sequencer.js:540-557 | the tempo, a 4 x 16 copy of every pad's velocity, and the router's snapshot |
| SequencerEngine.Sequencer.SetConfig | js/V2Sequencer.js:559-574 | no edit cursor, step 0, a tempo in 20..999 taken silently (re-arming an armed timer), every velocity loaded, note-offs on the old bindings and All Notes Off, bindings restored, and when a timer is armed the note-ons of step 0 on the new bindings |
| SequencerEngine.Sequencer.LoadAndClean | js/V2Sequencer.js:560-569 | velocities and tempo loaded, then the cleanup: note-offs for the sounding pads, step 0, All Notes Off, nothing sounding |
| SequencerEngine.Sequencer.LoadPattern | js/V2Sequencer.js:560-567 | no edit cursor, the tempo taken silently when accepted, every pad's velocity loaded, which pads sound unchanged |
| SequencerEngine.Sequencer.LoadVelocities | js/V2Sequencer.js:565-567 | every pad takes its velocity from the snapshot, keeping its active flag |
| SequencerEngine.Sequencer.Rebind | js/V2Sequencer.js:570-573 | the bindings are restored and, when a timer is armed, the current step's note-ons go out on the new bindings |
| SequencerEngine.Sequencer.SnapshotRoundTrip | js/V2Sequencer.js:540-574 | restoring the sequencer's own snapshot keeps the tempo, every pad's velocity, every track's channel and note, and every bound track's device name |

## Left out

- The DOM: element creation, button enabling, the version banner, the notification area, and the
  highlighting of the current step (`#highlightQuarter`). Colours are modelled only as the lightness
  percentage of the HSL string.
- The listener lists: "changed" notifications are counted in the ghost counters `changed` of both
  classes. The router's forwarding of its notifications to the sequencer's listeners is not modelled.
- Time: `setInterval`/`clearInterval` become an abstract timer handle with its period. `performance.now()`
  is not modelled; a message records its delay after "now". Real-time delivery of ticks is not modelled;
  a tick is a call of `TimerHandler`.
- The timer period is floating point in JavaScript and is modelled as an exact `real`.
- SequencerEngine.LightnessFloor: states the floor over exact reals, not over IEEE doubles. The exact value
  10 + 60·(127 − v)/127 lies at least 1/127 away from the nearest integer unless it is an integer, far
  more than the rounding error of the double computation. It is an integer only at v = 0 and v = 127
  (60·(127 − v) is a multiple of 127 only there), and at those velocities the double computation is exact
  (0/127 = 0 and 127/127 = 1). So the floors agree; that argument is not carried out in Dafny.
- SequencerEngine.Sequencer.Play: a rejected wake-lock request (js/V2Sequencer.js:493 throws inside the
  async function) skips the note-ons and the timer. The model has no failing request: `Play` always sends the note-ons and arms the timer,
  and `wakeLockSupported` only says whether a lock is taken.
- SequencerEngine.Sequencer.Play: the wake lock request is awaited asynchronously in the source. The model
  takes it synchronously, before the note-ons, and does not model a `stop` that runs while the request is
  pending. Host support for wake locks is a parameter.
- SequencerEngine.Sequencer.WakeLockReleased: models the `onrelease` handler as a call of `Stop`. The
  advisory text it shows is left out.
- Devices: a device is `{id, name}`, and its output port is identified with it. The MIDI library, the
  device select widget and the device list are not part of this model; the list of devices is a
  parameter.
- A message whose status is not a byte (a channel with no option selected gives `status | -1 == -1`) is
  recorded as built. What the browser's MIDI layer does with it is not modelled.
- DOM input values: string-to-number coercion and the clamping done by the input elements' "change"
  listeners are not modelled. The controls hold the last accepted integer value.
- `ReleaseTrack`, `StrikeTrack`, `LoadAndClean`, `LoadPattern`, `LoadVelocities`, `Rebind`,
  `RestoreControls` and `ClearVelocities` are parts of the source methods they are named after, split out
  so that each proof stays small. They do not stand for separate operations of the source.
- `js/V2SequencerLibrary.js` (the list of stored patterns) and `js/V2SequencerDatabase.js` (IndexedDB
  storage) are not part of this model; they are user interface and persistence glue.
