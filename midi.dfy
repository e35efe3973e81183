/**
 * The MIDI 1.0 messages the sequencer sends: Note On, Note Off and Control Change
 * (channel voice messages) and System Reset (a system real-time message), built as the
 * router builds them and read back by a reference parser that follows the MIDI 1.0
 * Detailed Specification.
 */
module Midi {
  import opened Wrappers

  /** Status bytes (high nibble of a channel voice message; the low nibble is the channel). */
  const NoteOffStatus: int := 0x80
  const NoteOnStatus: int := 0x90
  const ControlChangeStatus: int := 0xB0
  const SystemResetStatus: int := 0xFF

  /** Controller numbers: Channel Volume (CC 7) and the All Notes Off channel mode message (CC 123). */
  const ChannelVolume: int := 7
  const AllNotesOff: int := 123

  /** The release velocity the router puts into every Note Off. */
  const ReleaseVelocity: int := 64

  /** A data byte has its top bit clear. */
  predicate IsData(b: int) {
    0 <= b < 0x80
  }

  /** A message as a MIDI 1.0 receiver reads it. */
  datatype Event =
    | NoteOffEvent(channel: int, key: int, velocity: int)
    | NoteOnEvent(channel: int, key: int, velocity: int)
    | ControlChangeEvent(channel: int, controller: int, value: int)
    | SystemResetEvent

  /**
   * Reference reading of a byte sequence, for the message kinds the sequencer sends:
   * a status byte 0x80..0xEF carries the message kind in its high nibble and the channel
   * in its low nibble and is followed by two data bytes; 0xFF alone is System Reset.
   * Anything else is not a message of these kinds.
   */
  function Parse(bytes: seq<int>): Option<Event> {
    if |bytes| == 1 && bytes[0] == SystemResetStatus then
      Some(SystemResetEvent)
    else if |bytes| == 3 && 0x80 <= bytes[0] < 0xF0 && IsData(bytes[1]) && IsData(bytes[2]) then
      var kind, channel := bytes[0] / 16, bytes[0] % 16;
      if kind == 0x8 then Some(NoteOffEvent(channel, bytes[1], bytes[2]))
      else if kind == 0x9 then Some(NoteOnEvent(channel, bytes[1], bytes[2]))
      else if kind == 0xB then Some(ControlChangeEvent(channel, bytes[1], bytes[2]))
      else None
    else
      None
  }

  /**
   * The JavaScript expression `status | channel` for a status with a zero low nibble and a
   * channel that is a select index: 0..15, or -1 when no option is selected (and `x | -1`
   * is -1 in JavaScript).
   */
  function WithChannel(status: int, channel: int): (b: int)
    requires 0 <= status < 0x100 && status % 16 == 0
    requires -1 <= channel < 16
    ensures 0 <= channel ==> 0 <= b < 0x100 && b / 16 == status / 16 && b % 16 == channel
    ensures channel < 0 ==> b == -1
  {
    if channel < 0 then -1 else status + channel
  }

  /** `[noteOn | channel, note, velocity]`. */
  function NoteOnBytes(channel: int, key: int, velocity: int): (b: seq<int>)
    requires -1 <= channel < 16
    ensures 0 <= channel && IsData(key) && IsData(velocity) ==> Parse(b) == Some(NoteOnEvent(channel, key, velocity))
    ensures channel < 0 ==> Parse(b) == None
  {
    [WithChannel(NoteOnStatus, channel), key, velocity]
  }

  /** `[noteOff | channel, note, 64]`. */
  function NoteOffBytes(channel: int, key: int): (b: seq<int>)
    requires -1 <= channel < 16
    ensures 0 <= channel && IsData(key) ==> Parse(b) == Some(NoteOffEvent(channel, key, ReleaseVelocity))
    ensures channel < 0 ==> Parse(b) == None
  {
    [WithChannel(NoteOffStatus, channel), key, ReleaseVelocity]
  }

  /** `[controlChange | channel, number, value]`. */
  function ControlChangeBytes(channel: int, controller: int, value: int): (b: seq<int>)
    requires -1 <= channel < 16
    ensures 0 <= channel && IsData(controller) && IsData(value) ==> Parse(b) == Some(ControlChangeEvent(channel, controller, value))
    ensures channel < 0 ==> Parse(b) == None
  {
    [WithChannel(ControlChangeStatus, channel), controller, value]
  }

  /** `[systemReset]`. */
  function SystemResetBytes(): (b: seq<int>)
    ensures Parse(b) == Some(SystemResetEvent)
  {
    [SystemResetStatus]
  }
}
